/** The file operations `promote` and `demote` are made of, on a tree that maps every file's path to its content. */
module FileTree {
  import opened Wrappers

  type Path = seq<string>
  type Tree = map<Path, string>

  function At(t: Tree, p: Path): Option<string> {
    if p in t then Some(t[p]) else None
  }

  /** There is a file or a directory at a path. Directories are there because of the files below them. */
  predicate Exists(t: Tree, p: Path) {
    exists q | q in t :: p <= q
  }

  predicate IsDir(t: Tree, p: Path) {
    exists q | q in t :: p < q
  }

  /** No file has a file below it. */
  predicate WellFormed(t: Tree) {
    [] !in t && forall p, q | p in t && q in t :: !(p < q)
  }

  /** The names in a directory, each once, in whatever order the file system lists them. */
  ghost predicate Lists(t: Tree, dir: Path, names: seq<string>) {
    NoDuplicates(names) && forall name :: name in names <==> Exists(t, dir + [name])
  }

  predicate NoDuplicates(names: seq<string>) {
    forall i, j | 0 <= i < j < |names| :: names[i] != names[j]
  }

  /** Everything at or below `from` now at or below `to`, in place of what was there. */
  function Moved(t: Tree, from: Path, to: Path): Tree {
    var stay := set p | p in t && !(from <= p) && !(to <= p);
    var go := set p | p in t && from <= p :: to + p[|from|..];
    map p | p in stay + go && Origin(from, to, p) in t :: t[Origin(from, to, p)]
  }

  function Origin(from: Path, to: Path, p: Path): Path {
    if to <= p then from + p[|to|..] else p
  }

  lemma MovedAt(t: Tree, from: Path, to: Path, p: Path)
    requires !(to <= from) && !(from <= to)
    ensures At(Moved(t, from, to), p)
      == if to <= p then At(t, from + p[|to|..]) else if from <= p then None else At(t, p)
  {
    if to <= p {
      var q := from + p[|to|..];
      assert to + q[|from|..] == p && from <= q;
    } else {
      forall q | q in t && from <= q ensures to + q[|from|..] != p {
        assert to <= to + q[|from|..];
      }
    }
  }

  /** `renameSync`: it replaces a file by a file, and throws when a directory is involved in a collision. */
  function Rename(t: Tree, from: Path, to: Path): Option<Tree> {
    if Exists(t, to) && (IsDir(t, from) || IsDir(t, to)) then None else Some(Moved(t, from, to))
  }

  function Without(t: Tree, dir: Path): Tree {
    map p | p in t && !(dir <= p) :: t[p]
  }
}
