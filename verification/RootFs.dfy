/**
 The materialized tree of one FileSet extraction: nodes by path, and the directory
 modes that the extractor records separately and applies at the end.

 A path is the sequence of its segments; the rootfs itself is `[]` and is not a node.
 */
module RootFs {
  import opened Wrappers

  type Path = seq<string>

  datatype Node =
    | File(content: Bytes, perm: nat)
    | Link(target: string)
    | Dir

  datatype Tree = Tree(nodes: map<Path, Node>, modes: map<Path, nat>)

  const EmptyTree := Tree(map[], map[])

  // The mode of a directory no layer describes (0o755).
  const DefaultDirMode: nat := 493

  // Every node's parent is a directory, and exactly the directories carry a mode
  // (the rootfs may carry one too).
  ghost predicate WellFormed(t: Tree) {
    && [] !in t.nodes
    && (forall p {:trigger Anchored(t, p)} :: p in t.nodes ==> Anchored(t, p))
    && (forall p :: p in t.modes && p != [] ==> Tidy(t, p))
    && (forall p :: IsDir(t, p) ==> p in t.modes)
  }

  // p's parent is a directory (the rootfs always is one).
  ghost predicate Anchored(t: Tree, p: Path) {
    |p| > 1 ==> IsDir(t, p[..|p| - 1])
  }

  predicate IsDir(t: Tree, p: Path) {
    p in t.nodes && t.nodes[p].Dir?
  }

  // No proper ancestor of p is a file or a link: looking p up fails with nothing worse than
  // "does not exist".
  predicate Reachable(t: Tree, p: Path) {
    forall q | q in t.nodes && q < p :: t.nodes[q].Dir?
  }

  // A recursive removal of p, together with the modes recorded at and under it.
  function Removed(t: Tree, p: Path): Tree {
    Tree(map q | q in t.nodes && !(p <= q) :: t.nodes[q],
         map q | q in t.modes && !(p <= q) :: t.modes[q])
  }

  // The removal of everything strictly below p.
  function Emptied(t: Tree, p: Path): Tree {
    Tree(map q | q in t.nodes && (q == p || !(p <= q)) :: t.nodes[q],
         map q | q in t.modes && (q == p || !(p <= q)) :: t.modes[q])
  }

  function Prefixes(p: Path): (s: set<Path>)
    ensures forall q :: q in s <==> q != [] && q <= p
  {
    var s := set k | 0 < k <= |p| :: p[..k];
    assert forall q :: q != [] && q <= p ==> p[..|q|] == q && 0 < |q| <= |p|;
    s
  }

  // Whether creating p and its missing parents succeeds: nothing but directories on the way.
  predicate CanMakeDirs(t: Tree, p: Path) {
    forall q | q in t.nodes && q <= p :: t.nodes[q].Dir?
  }

  // p and its parents exist as directories; a mode already recorded is kept.
  function WithDirs(t: Tree, p: Path): Tree {
    Tree(t.nodes + (map q | q in Prefixes(p) :: Dir),
         (map q | q in Prefixes(p) :: DefaultDirMode) + t.modes)
  }

  // A mode is recorded only for a directory.
  ghost predicate Tidy(t: Tree, p: Path) {
    p in t.modes ==> IsDir(t, p)
  }

  function Parent(p: Path): Path
    requires p != []
  {
    p[..|p| - 1]
  }

  lemma ProperPrefix(q: Path, p: Path)
    requires q < p
    ensures q <= Parent(p)
  {
  }

  // What lookups below a path see: everything under an absent path or a leaf is absent.
  lemma {:induction false} NothingUnderLeaf(t: Tree, p: Path, q: Path)
    requires WellFormed(t)
    requires p != [] && p < q && !IsDir(t, p)
    ensures q !in t.nodes
    decreases |q|
  {
    if q in t.nodes {
      var up := Parent(q);
      assert Anchored(t, q);
      if up != p {
        assert p <= up;
        NothingUnderLeaf(t, p, up);
      }
    }
  }

  lemma {:induction false} ParentsAreDirs(t: Tree, p: Path, q: Path)
    requires WellFormed(t)
    requires p != [] && p < q && q in t.nodes
    ensures IsDir(t, p)
  {
    if !IsDir(t, p) {
      NothingUnderLeaf(t, p, q);
    }
  }
}
