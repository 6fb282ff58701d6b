/** `demote` on any directory: when it succeeds, and what is then where. */
module FleetDemoteExact {
  import opened Wrappers
  import opened Text
  import opened FileTree
  import opened FleetManifest
  import opened FleetPromote
  import opened FleetPromoteMoves
  import opened FleetPromoted
  import opened FleetDemote
  import opened FleetPromoteInverse

  // ---------- the checks ----------

  /** The id of the only agent of the manifest. */
  function SoleId(texts: Texts, t: Tree): Option<string> {
    if [Manifest] !in t then None
    else
      var agents := ReadAgents(texts.reader, SplitLines(t[[Manifest]]));
      if agents.Some? && |agents.value| == 1 then Some(texts.asText(agents.value[0].id)) else None
  }

  /** The manifest lists exactly one agent, under a well-formed id, the given one if one is given, and it has a
      directory. */
  predicate Checked(texts: Texts, t: Tree, id: Option<string>) {
    var only := SoleId(texts, t);
    && only.Some? && IsAgentId(only.value) && (id.Some? ==> id == only)
    && IsDir(t, AgentDir(only.value))
  }

  lemma SoleIs(texts: Texts, t: Tree, id: Option<string>)
    ensures Sole(texts, t, id).0.None? <==> Checked(texts, t, id)
    ensures Checked(texts, t, id) ==> Sole(texts, t, id) == (None, SoleId(texts, t).value)
  {
    assert [Manifest] in t ==> [Manifest] <= [Manifest] && Exists(t, [Manifest]);
  }

  // ---------- what stands at the root afterwards ----------

  /** A name is taken at the root by something that is also in the agent's directory. */
  predicate NameTaken(t: Tree, id: string) {
    exists q | q in t :: |q| > 2 && q[..2] == AgentDir(id) && Exists(t, [q[2]])
  }

  /** The note can be removed: it is no directory, neither at the root nor where it moves there from. */
  predicate NoteOk(t: Tree, id: string) {
    !IsDir(t, [Note]) && !IsDir(t, AgentDir(id) + [Note])
  }

  predicate PackageOk(texts: Texts, t: Tree, p: Path) {
    Exists(t, p) ==> p in t && texts.packageForAgent(t[p]).Some?
  }

  /** Everything a caller can check before the call. */
  predicate Demotable(texts: Texts, t: Tree, id: Option<string>) {
    && Checked(texts, t, id)
    && var only := SoleId(texts, t).value;
       && !NameTaken(t, only) && NoteOk(t, only)
       && PackageOk(texts, t, [Package]) && PackageOk(texts, t, AgentDir(only) + [Package])
  }

  /** What is at a path after the agent's files have moved up and the fleet's files are gone. All of `agents/` goes,
      other agents' directories and a note of the agent's own included. */
  function DemotedAt(texts: Texts, t: Tree, id: string, q: Path): Option<string> {
    if IsRootName(q) then None
    else
      var before := if q != [] && Exists(t, AgentDir(id) + [q[0]]) then At(t, AgentDir(id) + q) else At(t, q);
      if q == [Package] && before.Some? then texts.packageForAgent(before.value) else before
  }

  // ---------- moving up ----------

  lemma TakenIs(t: Tree, id: string, children: seq<string>)
    requires Lists(t, AgentDir(id), children)
    ensures NameTaken(t, id) <==> exists name :: name in children && Exists(t, [name])
  {
    if q :| q in t && |q| > 2 && q[..2] == AgentDir(id) && Exists(t, [q[2]]) {
      assert AgentDir(id) + [q[2]] <= q;
      assert q[2] in children;
    }
    if name :| name in children && Exists(t, [name]) {
      var q :| q in t && AgentDir(id) + [name] <= q;
      assert q[..2] == AgentDir(id) && q[2] == name;
    }
  }

  lemma ChildrenExist(t: Tree, id: string, children: seq<string>)
    requires Lists(t, AgentDir(id), children)
    ensures forall name | name in children :: Exists(t, AgentDir(id) + [name])
  {
  }

  lemma InRoot(t: Tree, q: Path)
    requires q != []
    ensures q in t ==> Exists(t, [q[0]])
  {
    assert [q[0]] <= q;
  }

  lemma FreeRoot(t: Tree, id: string, children: seq<string>)
    requires Lists(t, AgentDir(id), children) && IsDir(t, AgentDir(id)) && !NameTaken(t, id)
    ensures RootFree(t, children) && Agents !in children
  {
    TakenIs(t, id, children);
    forall q | q != [] && q[0] in children ensures q !in t { InRoot(t, q); }
    var q :| q in t && AgentDir(id) < q;
    assert q[0] == Agents && [Agents] <= q && Exists(t, [Agents]);
  }

  /** The move runs through exactly when no name is taken, and then every path is where it belongs. */
  lemma MovedUp(t: Tree, id: string, children: seq<string>)
    requires Lists(t, AgentDir(id), children) && IsDir(t, AgentDir(id))
    ensures MoveUp(t, id, children).error.None? <==> !NameTaken(t, id)
    ensures !NameTaken(t, id) ==> forall p :: At(MoveUp(t, id, children).tree, p) == UpAt(t, id, children, p)
  {
    ChildrenExist(t, id, children);
    TakenIs(t, id, children);
    MoveUpClobbers(t, id, children);
    if !NameTaken(t, id) {
      FreeRoot(t, id, children);
      MoveUpAt(t, id, children);
    }
  }

  /** What was in the agent's directory under a name is at the root, else what was there before. */
  lemma UpName(t: Tree, id: string, children: seq<string>, q: Path)
    requires Lists(t, AgentDir(id), children) && q != [] && q[0] != Agents
    ensures UpAt(t, id, children, q)
      == if Exists(t, AgentDir(id) + [q[0]]) then At(t, AgentDir(id) + q) else At(t, q)
  {
    UnderAgents(id, q);
  }

  lemma BelowName(id: string, name: string, q: Path)
    ensures [name] < q ==> q[0] == name && AgentDir(id) + [name] < AgentDir(id) + q
    ensures AgentDir(id) + [name] < q ==> q[2..] != [] && q == AgentDir(id) + q[2..] && [name] < q[2..]
  {
    if [name] < q { assert AgentDir(id) + q == AgentDir(id) + [name] + q[1..]; }
    if AgentDir(id) + [name] < q {
      assert q[..2] == AgentDir(id) && q[2] == name && q == q[..2] + q[2..];
      assert q[2..] == [name] + q[3..];
    }
  }

  lemma DirAfter(t: Tree, id: string, children: seq<string>, up: Tree, name: string)
    requires Lists(t, AgentDir(id), children) && name != Agents && !NameTaken(t, id)
    requires forall p :: At(up, p) == UpAt(t, id, children, p)
    ensures IsDir(up, [name]) <==> IsDir(t, [name]) || IsDir(t, AgentDir(id) + [name])
  {
    TakenIs(t, id, children);
    if IsDir(up, [name]) {
      var q :| q in up && [name] < q;
      BelowName(id, name, q);
      UpName(t, id, children, q);
      assert At(up, q) == UpAt(t, id, children, q);
    }
    if IsDir(t, [name]) {
      var q :| q in t && [name] < q;
      BelowName(id, name, q);
      assert [name] <= q && Exists(t, [name]);
      UpName(t, id, children, q);
      assert At(up, q) == UpAt(t, id, children, q);
    }
    if IsDir(t, AgentDir(id) + [name]) {
      var q :| q in t && AgentDir(id) + [name] < q;
      BelowName(id, name, q);
      assert AgentDir(id) + [name] <= q && Exists(t, AgentDir(id) + [name]);
      UpName(t, id, children, q[2..]);
      assert At(up, q[2..]) == UpAt(t, id, children, q[2..]);
    }
  }

  lemma FileAfter(t: Tree, id: string, children: seq<string>, up: Tree, name: string)
    requires Lists(t, AgentDir(id), children) && name != Agents && !NameTaken(t, id)
    requires forall p :: At(up, p) == UpAt(t, id, children, p)
    ensures At(up, [name]) == if Exists(t, AgentDir(id) + [name]) then At(t, AgentDir(id) + [name]) else At(t, [name])
  {
    UpName(t, id, children, [name]);
    assert At(up, [name]) == UpAt(t, id, children, [name]);
  }

  // ---------- cleaning up ----------

  lemma ExistsIs(t: Tree, p: Path)
    ensures Exists(t, p) <==> p in t || IsDir(t, p)
  {
    if q :| q in t && p <= q { assert q == p || p < q; }
    if q :| q in t && p < q { assert p <= q; }
    assert p <= p;
  }

  predicate CleanUpOk(texts: Texts, up: Tree) {
    !IsDir(up, [Note]) && PackageOk(texts, up, [Package])
  }

  lemma RootGone(up: Tree, p: Path)
    ensures var t2 := FileTree.Without(FileTree.Without(FileTree.Without(up, [Agents]), [Manifest]), [Note]);
      At(t2, p) == if IsRootName(p) then None else At(up, p)
  {
    var t0 := FileTree.Without(up, [Agents]);
    var t1 := FileTree.Without(t0, [Manifest]);
    WithoutAt(up, Agents, p);
    WithoutAt(t0, Manifest, p);
    WithoutAt(t1, Note, p);
  }

  lemma StillDir(up: Tree, name: string)
    requires name != Agents && name != Manifest
    ensures IsDir(FileTree.Without(FileTree.Without(up, [Agents]), [Manifest]), [name]) <==> IsDir(up, [name])
  {
    var t0 := FileTree.Without(up, [Agents]);
    var t1 := FileTree.Without(t0, [Manifest]);
    forall q | [name] < q ensures q in t1 <==> q in up {
      assert q[0] == name;
      WithoutAt(up, Agents, q);
      WithoutAt(t0, Manifest, q);
      assert At(t1, q) == At(up, q);
    }
  }

  lemma StillPackage(up: Tree)
    ensures var t2 := FileTree.Without(FileTree.Without(FileTree.Without(up, [Agents]), [Manifest]), [Note]);
      (Exists(t2, [Package]) <==> Exists(up, [Package])) && At(t2, [Package]) == At(up, [Package])
  {
    RootNames();
    var t2 := FileTree.Without(FileTree.Without(FileTree.Without(up, [Agents]), [Manifest]), [Note]);
    forall q | [Package] <= q ensures q in t2 <==> q in up {
      assert q[0] == Package;
      RootGone(up, q);
      assert At(t2, q) == At(up, q);
    }
    RootGone(up, [Package]);
  }

  function LeftAt(texts: Texts, up: Tree, p: Path): Option<string> {
    if IsRootName(p) then None
    else if p == [Package] && p in up then texts.packageForAgent(up[p])
    else At(up, p)
  }

  lemma CleanUpExact(texts: Texts, up: Tree)
    ensures CleanUp(texts, up).error.None? <==> CleanUpOk(texts, up)
    ensures CleanUpOk(texts, up) ==> forall p :: At(CleanUp(texts, up).tree, p) == LeftAt(texts, up, p)
  {
    RootNames();
    StillDir(up, Note);
    StillPackage(up);
    forall p ensures At(FileTree.Without(FileTree.Without(FileTree.Without(up, [Agents]), [Manifest]), [Note]), p)
      == if IsRootName(p) then None else At(up, p) { RootGone(up, p); }
    assert [Package] in up ==> [Package] <= [Package] && Exists(up, [Package]);
  }

  // ---------- the command ----------

  lemma CleansIff(texts: Texts, t: Tree, id: string, children: seq<string>, up: Tree)
    requires WellFormed(t) && Lists(t, AgentDir(id), children) && !NameTaken(t, id)
    requires forall p :: At(up, p) == UpAt(t, id, children, p)
    ensures CleanUpOk(texts, up)
      <==> NoteOk(t, id) && PackageOk(texts, t, [Package]) && PackageOk(texts, t, AgentDir(id) + [Package])
  {
    RootNames();
    TakenIs(t, id, children);
    DirAfter(t, id, children, up, Note);
    DirAfter(t, id, children, up, Package);
    FileAfter(t, id, children, up, Package);
    ExistsIs(up, [Package]);
    ExistsIs(t, [Package]);
    ExistsIs(t, AgentDir(id) + [Package]);
    NeverBoth(t, id, children, Package);
  }

  lemma NeverBoth(t: Tree, id: string, children: seq<string>, name: string)
    requires Lists(t, AgentDir(id), children) && !NameTaken(t, id)
    ensures !(Exists(t, [name]) && Exists(t, AgentDir(id) + [name]))
  {
    TakenIs(t, id, children);
    assert Exists(t, AgentDir(id) + [name]) <==> name in children;
  }

  lemma DemotedIs(texts: Texts, t: Tree, id: string, children: seq<string>, up: Tree, q: Path)
    requires Lists(t, AgentDir(id), children)
    requires forall p :: At(up, p) == UpAt(t, id, children, p)
    ensures DemotedAt(texts, t, id, q) == LeftAt(texts, up, q)
  {
    RootNames();
    assert At(up, q) == UpAt(t, id, children, q);
    if q != [] && q[0] != Agents { UpName(t, id, children, q); }
  }

  /** `demote` succeeds exactly when the manifest reads as one agent under a well-formed id, the given one if one is
      given, whose directory is there, no name to be moved up is taken at the root, and the note and the package file
      can be handled. Then the agent's files are at the root, the package file is the agent's again, `agents/` with
      everything in it, the manifest and the note are gone, and nothing else has changed. A directory that fails the
      checks on the manifest, in particular one with more than one agent, is left alone. */
  lemma DemoteExact(texts: Texts, t: Tree, id: Option<string>, children: seq<string>)
    requires WellFormed(t)
    requires Checked(texts, t, id) ==> Lists(t, AgentDir(SoleId(texts, t).value), children)
    ensures var r := Demote(texts, t, id, children);
      && (r.error.None? <==> Demotable(texts, t, id))
      && (r.error.None? ==> forall q :: At(r.tree, q) == DemotedAt(texts, t, SoleId(texts, t).value, q))
      && (!Checked(texts, t, id) ==> r.tree == t)
  {
    SoleIs(texts, t, id);
    if Checked(texts, t, id) {
      var only := SoleId(texts, t).value;
      MovedUp(t, only, children);
      if !NameTaken(t, only) {
        var up := MoveUp(t, only, children).tree;
        CleansIff(texts, t, only, children, up);
        CleanUpExact(texts, up);
        forall q ensures DemotedAt(texts, t, only, q) == LeftAt(texts, up, q) {
          DemotedIs(texts, t, only, children, up, q);
        }
      }
    }
  }

  /** A manifest that lists several agents is never demoted. */
  lemma ManyAgentsRefused(texts: Texts, t: Tree, id: Option<string>, children: seq<string>)
    requires [Manifest] in t
    requires var agents := ReadAgents(texts.reader, SplitLines(t[[Manifest]])); agents.Some? && |agents.value| > 1
    ensures Demote(texts, t, id, children) == Outcome(t, Some(ManyAgents))
  {
    assert [Manifest] <= [Manifest] && Exists(t, [Manifest]);
  }
}
