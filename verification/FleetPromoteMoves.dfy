/** Where every file is after the moves of `promote` and of `demote`. */
module FleetPromoteMoves {
  import opened Wrappers
  import opened FileTree
  import opened FleetPromote

  // ---------- what is moved ----------

  lemma PerAgentFilesDistinct()
    ensures NoDuplicates(PerAgentFiles)
  {
    assert |PerAgentFiles| == 7;
    assert |PerAgentFiles[0]| == 10 && |PerAgentFiles[1]| == 17 && |PerAgentFiles[2]| == 18;
    assert |PerAgentFiles[3]| == 14 && |PerAgentFiles[4]| == 13 && |PerAgentFiles[5]| == 12 && |PerAgentFiles[6]| == 12;
    assert PerAgentFiles[5][0] == 't' && PerAgentFiles[6][0] == 's';
  }

  lemma MarkdownEnds(name: string)
    ensures IsMarkdown(name) ==> name[|name| - 1] == 'd'
  {
    if IsMarkdown(name) { assert name[|name| - 1] == name[|name| - 3..][2]; }
  }

  lemma FileNames(name: string)
    requires name in PerAgentFiles
    ensures !IsMarkdown(name) && name != Skills && name != Agents && name != Package && name != Manifest
  {
    assert name[|name| - 1] == 'l';
    MarkdownEnds(name);
    assert |Skills| == 6 && |Agents| == 6 && Package[11] == 'n' && |Manifest| == 10;
    assert Manifest[0] == 'f' && |AgentYaml| == 10 && AgentYaml[0] == 'a';
  }

  lemma OtherNames(name: string)
    requires name in [Skills, Agents, Package, Manifest]
    ensures !IsMarkdown(name)
  {
    MarkdownEnds(name);
    assert Skills[5] == 's' && Agents[5] == 's' && Package[11] == 'n' && Manifest[9] == 'l';
  }

  /** What never moves. */
  lemma StaysPut(t: Tree, name: string)
    requires name in [Agents, Package, Manifest, Note]
    ensures !Belongs(t, name)
  {
    NoteName();
    if name in PerAgentFiles { FileNames(name); }
    if name != Note { OtherNames(name); }
    assert |Skills| == 6 && |Agents| == 6 && Agents[0] == 'a' && Skills[0] == 's';
    assert |Package| == 12 && |Manifest| == 10 && |Note| == 11;
  }

  lemma NoteName()
    ensures Note !in PerAgentFiles && IsMarkdown(Note)
  {
    if Note in PerAgentFiles { FileNames(Note); }
    assert Note[8..] == ".md";
  }

  lemma NoDuplicatesConcat(a: seq<string>, b: seq<string>)
    requires NoDuplicates(a) && NoDuplicates(b) && forall name | name in a :: name !in b
    ensures NoDuplicates(a + b)
  {
    forall i, j | 0 <= i < j < |a + b| ensures (a + b)[i] != (a + b)[j] {
      assert i < |a| <= j ==> (a + b)[i] in a && (a + b)[j] in b;
    }
  }

  /** The planned moves are the entries that belong to the agent, each once. */
  lemma MovesAre(t: Tree, listing: seq<string>)
    requires Lists(t, [], listing)
    ensures NoDuplicates(Moves(t, listing))
    ensures forall name :: name in Moves(t, listing) <==> Belongs(t, name)
  {
    var files := Filter(PerAgentFiles, Present(t));
    var skills := if IsDir(t, [Skills]) then [Skills] else [];
    var documents := Filter(listing, Documents(t));
    PerAgentFilesDistinct();
    forall name | name in files ensures name !in skills && name !in documents { FileNames(name); }
    OtherNames(Skills);
    NoDuplicatesConcat(files, skills);
    NoDuplicatesConcat(files + skills, documents);
    forall name ensures name in Moves(t, listing) <==> Belongs(t, name) {
      assert [name] in t ==> Exists(t, [] + [name]);
      assert name in Moves(t, listing) <==> name in files || name in skills || name in documents;
    }
  }

  // ---------- moving down ----------

  /** What is at a path after moving `names` down. */
  function DownAt(t: Tree, id: string, names: seq<string>, p: Path): Option<string> {
    if AgentDir(id) < p && p[2] in names then At(t, p[2..])
    else if p != [] && p[0] in names then None
    else At(t, p)
  }

  lemma Below(id: string, name: string, p: Path)
    ensures AgentDir(id) + [name] <= p <==> AgentDir(id) < p && p[2] == name
    ensures [name] <= p <==> p != [] && p[0] == name
  {
    if AgentDir(id) < p && p[2] == name { assert p == AgentDir(id) + [name] + p[3..]; }
    if p != [] && p[0] == name { assert p == [name] + p[1..]; }
  }

  lemma OneDown(t: Tree, id: string, name: string, p: Path)
    requires name != Agents
    ensures At(Moved(t, [name], AgentDir(id) + [name]), p) == DownAt(t, id, [name], p)
  {
    var to := AgentDir(id) + [name];
    assert to[0] == Agents && to[1] == id && to[2] == name;
    MovedAt(t, [name], to, p);
    Below(id, name, p);
    if to <= p { assert p[2..] == [name] + p[3..]; }
  }

  /** Renaming this entry does not collide with a directory. */
  predicate RenameOk(t: Tree, id: string, name: string) {
    Rename(t, [name], AgentDir(id) + [name]).Some?
  }

  lemma DownAlone(t: Tree, id: string, name: string, other: string)
    requires name != Agents && other != name && other != Agents
    ensures RenameOk(Moved(t, [name], AgentDir(id) + [name]), id, other) <==> RenameOk(t, id, other)
  {
    var t1 := Moved(t, [name], AgentDir(id) + [name]);
    forall q | AgentDir(id) + [other] <= q || [other] <= q ensures q in t1 <==> q in t {
      Below(id, other, q);
      assert q[0] == other || q[0] == Agents;
      OneDown(t, id, name, q);
    }
    SameBelow(t, t1, AgentDir(id) + [other]);
    SameBelow(t, t1, [other]);
  }

  lemma SameBelow(t: Tree, t1: Tree, p: Path)
    requires forall q | p <= q :: q in t1 <==> q in t
    ensures (Exists(t1, p) <==> Exists(t, p)) && (IsDir(t1, p) <==> IsDir(t, p))
  {
  }

  /** The moves succeed exactly when none of them collides, and then every file is where `DownAt` says. */
  lemma {:induction false} MoveDownAt(t: Tree, id: string, names: seq<string>)
    requires NoDuplicates(names) && Agents !in names
    ensures MoveDown(t, id, names).error.None? <==> forall name | name in names :: RenameOk(t, id, name)
    ensures MoveDown(t, id, names).error.None? ==>
      forall p :: At(MoveDown(t, id, names).tree, p) == DownAt(t, id, names, p)
    decreases |names|
  {
    if names != [] {
      var name := names[0];
      var rest := names[1..];
      assert names == [name] + rest;
      if RenameOk(t, id, name) {
        var t1 := Moved(t, [name], AgentDir(id) + [name]);
        forall p ensures At(t1, p) == DownAt(t, id, [name], p) { OneDown(t, id, name, p); }
        MoveDownAt(t1, id, rest);
        forall other | other in rest ensures RenameOk(t1, id, other) <==> RenameOk(t, id, other) {
          DownAlone(t, id, name, other);
        }
        forall p ensures DownAt(t1, id, rest, p) == DownAt(t, id, names, p) {
          DownTwice(t, t1, id, names, p);
        }
      }
    }
  }

  lemma DownTwice(t: Tree, t1: Tree, id: string, names: seq<string>, p: Path)
    requires names != [] && NoDuplicates(names) && Agents !in names
    requires forall p :: At(t1, p) == DownAt(t, id, names[..1], p)
    ensures DownAt(t1, id, names[1..], p) == DownAt(t, id, names, p)
  {
    var name := names[0];
    assert names == [name] + names[1..] && names[..1] == [name];
    if AgentDir(id) < p {
      assert p[0] == Agents;
      if p[2] in names[1..] {
        assert p[2..][0] == p[2];
        assert At(t1, p[2..]) == DownAt(t, id, [name], p[2..]);
      }
    }
    assert At(t1, p) == DownAt(t, id, [name], p);
  }

  /** Moving down, also as far as it gets, brings nothing to the root. */
  lemma {:induction false} NothingAppears(t: Tree, id: string, names: seq<string>, p: Path)
    requires Agents !in names && p != [] && p[0] != Agents && p !in t
    ensures p !in MoveDown(t, id, names).tree
    decreases |names|
  {
    if names != [] && RenameOk(t, id, names[0]) {
      OneDown(t, id, names[0], p);
      NothingAppears(Moved(t, [names[0]], AgentDir(id) + [names[0]]), id, names[1..], p);
    }
  }

  /** What was moved first is gone from the root, however far the moves get. */
  lemma FirstIsGone(t: Tree, id: string, names: seq<string>)
    requires names != [] && Agents !in names
    ensures if RenameOk(t, id, names[0]) then [names[0]] !in MoveDown(t, id, names).tree
            else MoveDown(t, id, names) == Outcome(t, Some(RenameFails(names[0])))
  {
    if RenameOk(t, id, names[0]) {
      OneDown(t, id, names[0], [names[0]]);
      NothingAppears(Moved(t, [names[0]], AgentDir(id) + [names[0]]), id, names[1..], [names[0]]);
    }
  }

  lemma {:induction false} FilterFirst(names: seq<string>, p: string -> bool)
    requires names != [] && p(names[0])
    ensures Filter(names, p) != [] && Filter(names, p)[0] == names[0]
  {
  }

  /** `agent.yaml` is moved first. */
  lemma AgentYamlFirst(t: Tree, listing: seq<string>)
    requires Exists(t, [AgentYaml])
    ensures Moves(t, listing) != [] && Moves(t, listing)[0] == AgentYaml
  {
    FilterFirst(PerAgentFiles, Present(t));
  }

  // ---------- moving up ----------

  /** What is at a path after moving `names` up. */
  function UpAt(t: Tree, id: string, names: seq<string>, p: Path): Option<string> {
    if p != [] && p[0] in names then At(t, AgentDir(id) + p)
    else if AgentDir(id) < p && p[2] in names then None
    else At(t, p)
  }

  lemma OneUp(t: Tree, id: string, name: string, p: Path)
    requires name != Agents
    ensures At(Moved(t, AgentDir(id) + [name], [name]), p) == UpAt(t, id, [name], p)
  {
    var from := AgentDir(id) + [name];
    assert from[0] == Agents && from[1] == id && from[2] == name;
    MovedAt(t, from, [name], p);
    Below(id, name, p);
    if [name] <= p { assert p == [name] + p[1..] && from + p[1..] == AgentDir(id) + p; }
  }

  ghost predicate RootFree(t: Tree, names: seq<string>) {
    forall q | q != [] && q[0] in names :: q !in t
  }

  lemma {:induction false} MoveUpAt(t: Tree, id: string, names: seq<string>)
    requires NoDuplicates(names) && Agents !in names && RootFree(t, names)
    ensures MoveUp(t, id, names).error.None?
    ensures forall p :: At(MoveUp(t, id, names).tree, p) == UpAt(t, id, names, p)
    decreases |names|
  {
    if names != [] {
      var name := names[0];
      var rest := names[1..];
      forall q | q in t ensures !([name] <= q) { Below(id, name, q); }
      var t1 := Moved(t, AgentDir(id) + [name], [name]);
      forall p ensures At(t1, p) == UpAt(t, id, [name], p) { OneUp(t, id, name, p); }
      forall q | q != [] && q[0] in rest ensures q !in t1 {
        assert At(t1, q) == UpAt(t, id, [name], q);
      }
      MoveUpAt(t1, id, rest);
      forall p ensures UpAt(t1, id, rest, p) == UpAt(t, id, names, p) {
        UpTwice(t, t1, id, names, p);
      }
    }
  }

  lemma UpTwice(t: Tree, t1: Tree, id: string, names: seq<string>, p: Path)
    requires names != [] && NoDuplicates(names) && Agents !in names && RootFree(t, names)
    requires forall p :: At(t1, p) == UpAt(t, id, names[..1], p)
    ensures UpAt(t1, id, names[1..], p) == UpAt(t, id, names, p)
  {
    var name := names[0];
    assert names == [name] + names[1..] && names[..1] == [name];
    var below := AgentDir(id) + p;
    assert below[0] == Agents && (p != [] ==> below[2] == p[0]);
    assert At(t1, below) == UpAt(t, id, [name], below);
    assert At(t1, p) == UpAt(t, id, [name], p);
    if AgentDir(id) < p { assert p[0] == Agents; }
  }
}
