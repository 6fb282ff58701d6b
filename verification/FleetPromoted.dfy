/** The tree that `promote` makes, path by path, and what a failing `promote` leaves behind. */
module FleetPromoted {
  import opened Wrappers
  import opened FileTree
  import opened FleetPromote
  import opened FleetPromoteMoves

  // ---------- the promoted tree ----------

  function AgentPath(id: string, name: string): Path {
    AgentDir(id) + [name]
  }

  /** The content `promote` gives the agent's file `name` whose content was `text`. */
  function Rewritten(id: string, name: string, text: string): Option<string> {
    if name == AgentYaml then NewName(text, id)
    else if name == Capabilities then Some(NewAgent(text, id))
    else Some(text)
  }

  function AgentFileAt(t: Tree, id: string, p: Path): Option<string> {
    if p in t then (if |p| == 1 then Rewritten(id, p[0], t[p]) else Some(t[p])) else None
  }

  /** After the moves and the two rewrites, of which the second also finds capabilities that were there before. */
  function MiddleAt(t: Tree, id: string, names: seq<string>, p: Path): Option<string> {
    if AgentDir(id) < p && p[2] in names then AgentFileAt(t, id, p[2..])
    else if p == AgentPath(id, Capabilities) && p in t then Some(NewAgent(t[p], id))
    else if p != [] && p[0] in names then None
    else At(t, p)
  }

  /** What is at a path of the promoted tree. */
  function PromotedAt(texts: Texts, t: Tree, id: string, names: seq<string>, p: Path): Option<string> {
    if p == [Package] then FleetPackage(texts, At(t, [Package]), id)
    else if p == [Manifest] then Some(ManifestText(id))
    else if p == [Note] then Some(texts.note(id))
    else MiddleAt(t, id, names, p)
  }

  lemma RootNames()
    ensures Package != Manifest && Package != Note && Manifest != Note && AgentYaml != Capabilities
    ensures Package != Agents && Manifest != Agents && Note != Agents
  {
    assert |Package| == 12 && |Manifest| == 10 && |Note| == 11 && |Agents| == 6;
    assert |AgentYaml| == 10 && |Capabilities| == 17;
  }

  lemma MovesBelong(t: Tree, listing: seq<string>)
    requires Lists(t, [], listing) && WellFormed(t)
    ensures var names := Moves(t, listing);
      && NoDuplicates(names) && (forall name | name in names :: Exists(t, [name]))
      && Agents !in names && Package !in names && Manifest !in names && Note !in names
      && (AgentYaml in names <==> Exists(t, [AgentYaml])) && (Capabilities in names <==> Exists(t, [Capabilities]))
  {
    MovesAre(t, listing);
    StaysPut(t, Agents);
    StaysPut(t, Package);
    StaysPut(t, Manifest);
    StaysPut(t, Note);
    assert PerAgentFiles[0] == AgentYaml && PerAgentFiles[1] == Capabilities;
    FileNames(AgentYaml);
    FileNames(Capabilities);
    forall name | name in Moves(t, listing) ensures Exists(t, [name]) {
      assert Belongs(t, name);
      assert [name] in t ==> [name] <= [name];
    }
  }

  /** A directory entry is in a tree when its files are in the other tree, two levels higher. */
  lemma ExistsBelow(t: Tree, t': Tree, id: string, name: string)
    requires forall q | AgentDir(id) < q && q[2] == name :: At(t', q).Some? <==> At(t, q[2..]).Some?
    ensures Exists(t', AgentPath(id, name)) <==> Exists(t, [name])
  {
    if Exists(t, [name]) {
      var q :| q in t && [name] <= q;
      var q' := AgentDir(id) + q;
      assert q'[2..] == q && q'[2] == name && AgentDir(id) < q';
      assert At(t', q').Some? && AgentPath(id, name) <= q';
    }
    if Exists(t', AgentPath(id, name)) {
      var q :| q in t' && AgentPath(id, name) <= q;
      Below(id, name, q);
      assert At(t', q).Some?;
      Below(id, name, q[2..]);
    }
  }

  /** The capabilities that the agent's directory will have are a file, if it will have any. */
  predicate CapabilitiesOk(t: Tree, id: string) {
    if Exists(t, [Capabilities]) then [Capabilities] in t
    else Exists(t, AgentPath(id, Capabilities)) ==> AgentPath(id, Capabilities) in t
  }

  /** Whether a valid plan can be followed through. */
  predicate CanApply(texts: Texts, t: Tree, id: string, names: seq<string>) {
    && !Blocked(t, id) && (forall name | name in names :: RenameOk(t, id, name))
    && [AgentYaml] in t && NewName(t[[AgentYaml]], id).Some? && CapabilitiesOk(t, id)
    && FleetPackage(texts, At(t, [Package]), id).Some?
    && !IsDir(t, [Note])
  }

  /** The names of a plan that has been made. */
  ghost predicate Planned(t: Tree, names: seq<string>) {
    && WellFormed(t) && !Exists(t, [Manifest]) && [AgentYaml] in t
    && NoDuplicates(names) && (forall name | name in names :: Exists(t, [name]))
    && Agents !in names && Package !in names && Manifest !in names && Note !in names
    && AgentYaml in names && (Capabilities in names <==> Exists(t, [Capabilities]))
  }

  function NamedAt(t: Tree, id: string, names: seq<string>, p: Path): Option<string>
    requires [AgentYaml] in t
  {
    if p == AgentPath(id, AgentYaml) then NewName(t[[AgentYaml]], id) else DownAt(t, id, names, p)
  }

  lemma MovedAndNamed(t: Tree, id: string, names: seq<string>)
    requires Planned(t, names) && forall name | name in names :: RenameOk(t, id, name)
    ensures MoveDown(t, id, names).error.None?
    ensures var named := RewriteName(MoveDown(t, id, names).tree, id);
      && (named.error.None? <==> NewName(t[[AgentYaml]], id).Some?)
      && (named.error.None? ==> forall p :: At(named.tree, p) == NamedAt(t, id, names, p))
  {
    MoveDownAt(t, id, names);
    var moved := MoveDown(t, id, names).tree;
    var path := AgentPath(id, AgentYaml);
    assert path[2..] == [AgentYaml];
    assert At(moved, path) == DownAt(t, id, names, path);
    assert path in moved && path <= path;
    var named := RewriteName(moved, id);
    if named.error.None? {
      forall p ensures At(named.tree, p) == NamedAt(t, id, names, p) {
        assert At(moved, p) == DownAt(t, id, names, p);
      }
    }
  }

  /** Before the capabilities are rewritten. */
  function UnrewrittenAt(t: Tree, id: string, names: seq<string>, p: Path): Option<string> {
    if p == AgentPath(id, Capabilities) then At(t, if Capabilities in names then [Capabilities] else p)
    else MiddleAt(t, id, names, p)
  }

  lemma NamedAtCases(t: Tree, id: string, names: seq<string>, p: Path)
    requires Planned(t, names)
    ensures NamedAt(t, id, names, p) == UnrewrittenAt(t, id, names, p)
  {
    RootNames();
    var path := AgentPath(id, Capabilities);
    assert path[2..] == [Capabilities] && path[2] == Capabilities && path[0] == Agents;
    assert AgentPath(id, AgentYaml)[2] == AgentYaml && AgentPath(id, AgentYaml)[2..] == [AgentYaml];
    if AgentDir(id) < p && |p| == 3 { assert p == AgentPath(id, p[2]); }
  }

  /** The agent's capabilities, if there are any, come from the root or were there before. */
  lemma CapabilitiesMoved(t: Tree, named: Tree, id: string, names: seq<string>)
    requires Planned(t, names) && forall p :: At(named, p) == NamedAt(t, id, names, p)
    ensures var path := AgentPath(id, Capabilities);
      Exists(named, path) <==> Exists(t, [Capabilities]) || Exists(t, path)
  {
    var path := AgentPath(id, Capabilities);
    forall q | AgentDir(id) < q && q[2] == Capabilities
      ensures At(named, q).Some? <==> At(t, if Capabilities in names then q[2..] else q).Some?
    {
      CapabilitiesFile(t, named, id, names, q);
    }
    if Capabilities in names {
      ExistsBelow(t, named, id, Capabilities);
    } else {
      forall q | path <= q ensures q in named <==> q in t { Below(id, Capabilities, q); }
    }
  }

  lemma CapabilitiesFile(t: Tree, named: Tree, id: string, names: seq<string>, q: Path)
    requires Planned(t, names) && forall p :: At(named, p) == NamedAt(t, id, names, p)
    requires AgentDir(id) < q && q[2] == Capabilities
    ensures At(named, q).Some? <==> At(t, if Capabilities in names then q[2..] else q).Some?
  {
    RootNames();
    assert q != AgentPath(id, AgentYaml) by { assert AgentPath(id, AgentYaml)[2] == AgentYaml; }
    assert At(named, q) == NamedAt(t, id, names, q) == DownAt(t, id, names, q);
    assert q[0] == AgentDir(id)[0];
  }

  lemma NamedElsewhere(t: Tree, named: Tree, id: string, names: seq<string>)
    requires Planned(t, names) && forall p :: At(named, p) == NamedAt(t, id, names, p)
    ensures forall p :: At(named, p) == UnrewrittenAt(t, id, names, p)
  {
    forall p ensures At(named, p) == UnrewrittenAt(t, id, names, p) { NamedAtCases(t, id, names, p); }
  }

  lemma CapabilitiesAt(t: Tree, id: string, names: seq<string>)
    requires Planned(t, names)
    ensures var path := AgentPath(id, Capabilities); var raw := UnrewrittenAt(t, id, names, path);
      MiddleAt(t, id, names, path) == if raw.Some? then Some(NewAgent(raw.value, id)) else None
    ensures UnrewrittenAt(t, id, names, [AgentYaml]) == None
  {
    RootNames();
    var path := AgentPath(id, Capabilities);
    assert path[2..] == [Capabilities] && path[2] == Capabilities && path[0] == Agents;
  }

  lemma CapabilitiesRewritten(t: Tree, named: Tree, id: string, names: seq<string>)
    requires Planned(t, names)
    requires forall p :: At(named, p) == NamedAt(t, id, names, p)
    ensures var capable := RewriteCapabilities(named, id);
      && (capable.error.None? <==> CapabilitiesOk(t, id))
      && (capable.error.None? ==> forall p :: At(capable.tree, p) == MiddleAt(t, id, names, p))
  {
    var path := AgentPath(id, Capabilities);
    CapabilitiesMoved(t, named, id, names);
    NamedElsewhere(t, named, id, names);
    CapabilitiesAt(t, id, names);
    assert At(named, path) == UnrewrittenAt(t, id, names, path);
    assert [Capabilities] in t ==> [Capabilities] <= [Capabilities] && Exists(t, [Capabilities]);
    assert path in t ==> path <= path && Exists(t, path);
    var capable := RewriteCapabilities(named, id);
    if capable.error.None? {
      forall p ensures At(capable.tree, p) == MiddleAt(t, id, names, p) {
        RewrittenAt(named, id, p);
        assert At(named, p) == UnrewrittenAt(t, id, names, p);
      }
    }
  }

  lemma RewrittenAt(named: Tree, id: string, p: Path)
    requires RewriteCapabilities(named, id).error.None?
    ensures var path := AgentPath(id, Capabilities);
      At(RewriteCapabilities(named, id).tree, p)
        == if p == path && path in named then Some(NewAgent(named[path], id)) else At(named, p)
  {
    var path := AgentPath(id, Capabilities);
    assert path in named ==> path <= path && Exists(named, path);
  }

  /** The part of `CanApply` that the writes at the root do not depend on. */
  predicate CanMove(t: Tree, id: string, names: seq<string>) {
    && !Blocked(t, id) && (forall name | name in names :: RenameOk(t, id, name))
    && [AgentYaml] in t && NewName(t[[AgentYaml]], id).Some? && CapabilitiesOk(t, id)
  }

  lemma MiddleReached(texts: Texts, t: Tree, id: string, names: seq<string>)
    requires Planned(t, names)
    ensures var r := Apply(texts, t, id, names);
      && (!CanMove(t, id, names) ==> r.error.Some?)
      && (CanMove(t, id, names) ==> exists m :: r == WriteRoot(texts, m, id, At(t, [Package]))
                                                && forall p :: At(m, p) == MiddleAt(t, id, names, p))
  {
    MoveDownAt(t, id, names);
    if !Blocked(t, id) && forall name | name in names :: RenameOk(t, id, name) {
      MovedAndNamed(t, id, names);
      var named := RewriteName(MoveDown(t, id, names).tree, id);
      if named.error.None? {
        CapabilitiesRewritten(t, named.tree, id, names);
        var m := RewriteCapabilities(named.tree, id).tree;
        assert CanMove(t, id, names) ==> Apply(texts, t, id, names) == WriteRoot(texts, m, id, At(t, [Package]));
      }
    }
  }

  lemma ThreeWrites(m: Tree, a: Path, b: Path, c: Path, x: string, y: string, z: string, p: Path)
    requires a != b && a != c && b != c
    ensures At(m[a := x][b := y], p) == if p == a then Some(x) else if p == b then Some(y) else At(m, p)
    ensures At(m[a := x][b := y][c := z], p)
      == if p == a then Some(x) else if p == b then Some(y) else if p == c then Some(z) else At(m, p)
  {
  }

  lemma OtherRoot(p: string)
    requires p in [Package, Manifest, Note]
    ensures p != AgentYaml && [p] != [AgentYaml]
  {
    FileNames(AgentYaml);
    NoteName();
    assert PerAgentFiles[0] == AgentYaml;
  }

  lemma RootWritten(texts: Texts, t: Tree, id: string, names: seq<string>, m: Tree)
    requires Planned(t, names)
    requires forall p :: At(m, p) == MiddleAt(t, id, names, p)
    ensures var r := WriteRoot(texts, m, id, At(t, [Package]));
      && (r.error.None? <==> FleetPackage(texts, At(t, [Package]), id).Some? && !IsDir(t, [Note]))
      && (r.error.None? ==> forall p :: At(r.tree, p) == PromotedAt(texts, t, id, names, p))
  {
    var package := FleetPackage(texts, At(t, [Package]), id);
    if package.Some? { RootWrittenAt(texts, t, id, names, m, package.value); }
  }

  lemma RootWrittenAt(texts: Texts, t: Tree, id: string, names: seq<string>, m: Tree, package: string)
    requires Planned(t, names) && FleetPackage(texts, At(t, [Package]), id) == Some(package)
    requires forall p :: At(m, p) == MiddleAt(t, id, names, p)
    ensures var t1 := m[[Package] := package][[Manifest] := ManifestText(id)];
      var t2 := t1[[Note] := texts.note(id)];
      && (IsDir(t1, [Note]) <==> IsDir(t, [Note]))
      && forall p :: At(t2, p) == PromotedAt(texts, t, id, names, p)
  {
    RootNames();
    var t1 := m[[Package] := package][[Manifest] := ManifestText(id)];
    var t2 := t1[[Note] := texts.note(id)];
    assert [Package] != [Manifest] && [Package] != [Note] && [Manifest] != [Note];
    forall p ensures At(t2, p) == PromotedAt(texts, t, id, names, p) {
      ThreeWrites(m, [Package], [Manifest], [Note], package, ManifestText(id), texts.note(id), p);
    }
    SameBelowNote(t, m, id, names, t1);
  }

  lemma SameBelowNote(t: Tree, m: Tree, id: string, names: seq<string>, t1: Tree)
    requires Planned(t, names)
    requires forall p :: At(m, p) == MiddleAt(t, id, names, p)
    requires forall p | |p| > 1 :: p in t1 <==> p in m
    ensures IsDir(t1, [Note]) <==> IsDir(t, [Note])
  {
    RootNames();
    forall q | [Note] < q ensures q in t1 <==> q in t {
      assert q[0] == Note && At(m, q) == MiddleAt(t, id, names, q);
    }
  }

  /** `applyPromotePlan()` runs through exactly when nothing is in the way and it can read, rewrite and write what it
      has to; then the promoted tree is known path by path. */
  lemma ApplyAt(texts: Texts, t: Tree, id: string, names: seq<string>)
    requires Planned(t, names)
    ensures var r := Apply(texts, t, id, names);
      && (r.error.None? <==> CanApply(texts, t, id, names))
      && (r.error.None? ==> forall p :: At(r.tree, p) == PromotedAt(texts, t, id, names, p))
  {
    MiddleReached(texts, t, id, names);
    var r := Apply(texts, t, id, names);
    if CanMove(t, id, names) {
      var m :| r == WriteRoot(texts, m, id, At(t, [Package])) && forall p :: At(m, p) == MiddleAt(t, id, names, p);
      RootWritten(texts, t, id, names, m);
    }
  }

  // ---------- what a failing promote leaves ----------

  lemma RewritesKeepRoot(t: Tree, id: string, p: Path)
    requires |p| == 1
    ensures At(RewriteName(t, id).tree, p) == At(t, p) && At(RewriteCapabilities(t, id).tree, p) == At(t, p)
  {
    assert |AgentDir(id) + [AgentYaml]| == 3 && |AgentDir(id) + [Capabilities]| == 3;
  }

  lemma WritesKeep(texts: Texts, t: Tree, id: string, existing: Option<string>)
    ensures At(WriteRoot(texts, t, id, existing).tree, [AgentYaml]) == At(t, [AgentYaml])
  {
    OtherRoot(Package);
    OtherRoot(Manifest);
    OtherRoot(Note);
  }

  /** Once `agent.yaml` has been moved it stays away, wherever the command stops. */
  lemma AppliedOrNot(texts: Texts, t: Tree, id: string, names: seq<string>)
    requires Planned(t, names) && names != [] && names[0] == AgentYaml
    ensures var r := Apply(texts, t, id, names);
      if Blocked(t, id) || !RenameOk(t, id, AgentYaml) then r.error.Some? && r.tree == t else [AgentYaml] !in r.tree
  {
    FirstIsGone(t, id, names);
    var moved := MoveDown(t, id, names);
    RewritesKeepRoot(moved.tree, id, [AgentYaml]);
    var named := RewriteName(moved.tree, id);
    RewritesKeepRoot(named.tree, id, [AgentYaml]);
    WritesKeep(texts, RewriteCapabilities(named.tree, id).tree, id, At(t, [Package]));
  }

  lemma PlanIsPlanned(texts: Texts, t: Tree, id: Option<string>, listing: seq<string>)
    requires WellFormed(t) && Lists(t, [], listing) && Plan(texts, t, id).0.None?
    ensures Planned(t, Moves(t, listing)) && Moves(t, listing) != [] && Moves(t, listing)[0] == AgentYaml
  {
    MovesBelong(t, listing);
    assert [AgentYaml] <= [AgentYaml];
    AgentYamlFirst(t, listing);
  }

  /** `promote` succeeds exactly when the plan does and can be carried out; a failed `promote` leaves the directory as
      it was exactly when the plan failed, or a file stood in the way of the agent's directory or of the first move.
      */
  lemma PromoteOutcome(texts: Texts, t: Tree, id: Option<string>, listing: seq<string>)
    requires WellFormed(t) && Lists(t, [], listing)
    ensures var r := Promote(texts, t, id, listing); var (error, agentId) := Plan(texts, t, id);
      && (r.error.None? <==> error.None? && CanApply(texts, t, agentId, Moves(t, listing)))
      && (r.error.Some? ==> (r.tree == t <==> error.Some? || Blocked(t, agentId) || !RenameOk(t, agentId, AgentYaml)))
  {
    var (error, agentId) := Plan(texts, t, id);
    if error.None? {
      PlanIsPlanned(texts, t, id, listing);
      ApplyAt(texts, t, agentId, Moves(t, listing));
      AppliedOrNot(texts, t, agentId, Moves(t, listing));
    }
  }
}
