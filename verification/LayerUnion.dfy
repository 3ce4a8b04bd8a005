/**
 The declarative meaning of a stack of filesystem layers (the Whiteouts section of the OCI
 image layer specification), stated path by path: the topmost layer that mentions a path
 decides it, directories merge, and what a layer hides of the layers below never resurfaces.
 */
module LayerUnion {
  import opened Wrappers
  import opened RootFs

  // One tar entry after its name was validated and normalized.
  datatype Action =
    | Skip
    | RootMode(mode: nat)
    | Opaque(dir: Path)
    | Whiteout(victim: Path)
    | PutDir(path: Path, mode: nat)
    | PutLeaf(path: Path, node: Node)
    | PutHardlink(path: Path, target: Path)

  type Layer = seq<Action>

  // What a lookup of one path answers.
  datatype View = Leaf(node: Node) | Folder(mode: nat)

  // What one layer by itself says about one path. A directory that is only implied by an
  // entry below it takes its mode from the layers underneath.
  datatype Own = Silent | OwnLeaf(node: Node) | OwnFolder(mode: nat) | Implied

  predicate ActionOk(a: Action) {
    match a
    case PutDir(p, _) => p != []
    case PutLeaf(p, n) => p != [] && !n.Dir?
    case PutHardlink(p, _) => p != []
    case Whiteout(v) => v != []
    case _ => true
  }

  predicate LayerOk(layer: Layer) {
    forall i | 0 <= i < |layer| :: ActionOk(layer[i])
  }

  function ImpliedOver(o: Own): Own {
    if o.OwnFolder? then o else Implied
  }

  // The statement of `layer` (its last relevant entry wins) about p.
  ghost function OwnOf(lower: seq<Layer>, layer: Layer, p: Path): Own
    decreases |lower|, |layer|, 0
  {
    if layer == [] then Silent else
    var rest := layer[..|layer| - 1];
    match layer[|layer| - 1]
    case Skip => OwnOf(lower, rest, p)
    case RootMode(_) => OwnOf(lower, rest, p)
    case Whiteout(_) => OwnOf(lower, rest, p)
    case Opaque(d) =>
      if p <= d then ImpliedOver(OwnOf(lower, rest, p)) else OwnOf(lower, rest, p)
    case PutDir(q, m) =>
      if p == q then OwnFolder(m)
      else if p <= q then ImpliedOver(OwnOf(lower, rest, p))
      else OwnOf(lower, rest, p)
    case PutLeaf(q, n) =>
      if p == q then OwnLeaf(n)
      else if p <= q then ImpliedOver(OwnOf(lower, rest, p))
      else if q <= p then Silent
      else OwnOf(lower, rest, p)
    case PutHardlink(q, target) =>
      if p == q then
        match Lookup(lower, rest, target)
        case Some(Leaf(n)) => OwnLeaf(n)
        case _ => Silent
      else if p <= q then ImpliedOver(OwnOf(lower, rest, p))
      else if q <= p then Silent
      else OwnOf(lower, rest, p)
  }

  // One entry hides p of the layers below: p is at or under a whiteout, under an opaque
  // directory, or under something that is not a directory any more.
  ghost predicate ActionHides(a: Action, p: Path) {
    match a
    case Whiteout(v) => v <= p
    case Opaque(d) => d < p
    case PutLeaf(q, _) => q < p
    case PutHardlink(q, _) => q < p
    case _ => false
  }

  ghost predicate Hides(layer: Layer, p: Path) {
    exists i :: 0 <= i < |layer| && ActionHides(layer[i], p)
  }

  // The union of `lower` topped by `layer`.
  ghost function Lookup(lower: seq<Layer>, layer: Layer, p: Path): Option<View>
    decreases |lower|, |layer|, 1
  {
    var below: Option<View> :=
      if lower == [] || Hides(layer, p) then None
      else Lookup(lower[..|lower| - 1], lower[|lower| - 1], p);
    match OwnOf(lower, layer, p)
    case OwnLeaf(n) => Some(Leaf(n))
    case OwnFolder(m) => Some(Folder(m))
    case Implied => Some(Folder(if below.Some? && below.value.Folder? then below.value.mode else DefaultDirMode))
    case Silent => below
  }

  ghost function Below(lower: seq<Layer>, layer: Layer, p: Path): Option<View> {
    if lower == [] || Hides(layer, p) then None
    else Lookup(lower[..|lower| - 1], lower[|lower| - 1], p)
  }

  /******* Stream-order application *******/

  // The effect of one entry on the tree, `None` when the extractor aborts.
  function Apply(t: Tree, a: Action): Option<Tree> {
    match a
    case Skip => Some(t)
    case RootMode(m) => Some(t.(modes := t.modes[[] := m]))
    case Opaque(d) =>
      if CanMakeDirs(t, d) then Some(Emptied(WithDirs(t, d), d)) else None
    case Whiteout(v) =>
      if Reachable(t, v) then Some(Removed(t, v)) else None
    case PutDir(p, m) =>
      if p == [] || !Reachable(t, p) then None else
      var cleared := if IsDir(t, p) then t else Removed(t, p);
      if CanMakeDirs(cleared, p) then
        var made := WithDirs(cleared, p);
        Some(made.(modes := made.modes[p := m]))
      else None
    case PutLeaf(p, n) => ApplyLeaf(t, p, n)
    case PutHardlink(p, target) =>
      if Reachable(t, target) && target in t.nodes && t.nodes[target].File? && !(p <= target)
      then ApplyLeaf(t, p, t.nodes[target])
      else None
  }

  function ApplyLeaf(t: Tree, p: Path, n: Node): Option<Tree> {
    if p == [] || !Reachable(t, p) then None else
    var cleared := Removed(t, p);
    if CanMakeDirs(cleared, Parent(p)) then
      var made := WithDirs(cleared, Parent(p));
      Some(made.(nodes := made.nodes[p := n]))
    else None
  }

  function ViewOf(t: Tree, p: Path): Option<View> {
    if p !in t.nodes then None
    else if t.nodes[p].Dir? then Some(Folder(if p in t.modes then t.modes[p] else DefaultDirMode))
    else Some(Leaf(t.nodes[p]))
  }

  ghost predicate Represents(t: Tree, lower: seq<Layer>, layer: Layer) {
    && WellFormed(t)
    && forall p :: p != [] ==> ViewOf(t, p) == Lookup(lower, layer, p)
  }

  // An entry does not delete what its own layer already put down.
  ghost predicate SparesOwnLayer(lower: seq<Layer>, layer: Layer, a: Action) {
    match a
    case Whiteout(v) => forall p :: v <= p ==> OwnOf(lower, layer, p) == Silent
    case Opaque(d) => forall p :: d < p ==> OwnOf(lower, layer, p) == Silent
    case _ => true
  }

  /******* One entry *******/

  lemma Snoc(lower: seq<Layer>, layer: Layer, a: Action, p: Path)
    ensures (layer + [a])[..|layer|] == layer && (layer + [a])[|layer|] == a
    ensures Hides(layer + [a], p) <==> Hides(layer, p) || ActionHides(a, p)
    ensures Below(lower, layer + [a], p) == if ActionHides(a, p) then None else Below(lower, layer, p)
  {
    var more := layer + [a];
    assert more[..|layer|] == layer && more[|layer|] == a;
    if Hides(layer, p) {
      var i :| 0 <= i < |layer| && ActionHides(layer[i], p);
      assert ActionHides(more[i], p);
    }
    if ActionHides(a, p) {
      assert ActionHides(more[|layer|], p);
    }
    if Hides(more, p) {
      var i :| 0 <= i < |more| && ActionHides(more[i], p);
      assert i < |layer| ==> ActionHides(layer[i], p);
    }
  }

  // A directory that an entry implies: created when absent, kept with its mode otherwise.
  lemma ImpliedStep(lower: seq<Layer>, layer: Layer, a: Action, p: Path)
    requires var was := Lookup(lower, layer, p); was.None? || was.value.Folder?
    requires !ActionHides(a, p)
    requires OwnOf(lower, layer + [a], p) == ImpliedOver(OwnOf(lower, layer, p))
    ensures Lookup(lower, layer + [a], p)
            == var was := Lookup(lower, layer, p); Some(if was.Some? then was.value else Folder(DefaultDirMode))
  {
    Snoc(lower, layer, a, p);
  }

  // An entry that says nothing about p and hides nothing there.
  lemma SilentStep(lower: seq<Layer>, layer: Layer, a: Action, p: Path)
    requires !ActionHides(a, p) && OwnOf(lower, layer + [a], p) == OwnOf(lower, layer, p)
    ensures Lookup(lower, layer + [a], p) == Lookup(lower, layer, p)
  {
    Snoc(lower, layer, a, p);
  }

  // What a directory entry says.
  lemma DirLookup(lower: seq<Layer>, layer: Layer, q: Path, m: nat, p: Path)
    requires var was := Lookup(lower, layer, p); p < q ==> was.None? || was.value.Folder?
    ensures var was, now := Lookup(lower, layer, p), Lookup(lower, layer + [PutDir(q, m)], p);
            now == if p == q then Some(Folder(m))
                   else if p < q && was.None? then Some(Folder(DefaultDirMode))
                   else was
  {
    var a := PutDir(q, m);
    Snoc(lower, layer, a, p);
    if p < q {
      ImpliedStep(lower, layer, a, p);
    } else if p != q {
      SilentStep(lower, layer, a, p);
    }
  }

  // What an entry for a file or a link says.
  lemma LeafLookup(lower: seq<Layer>, layer: Layer, a: Action, q: Path, n: Node, p: Path)
    requires PutsLeaf(lower, layer, a, q, n)
    requires var was := Lookup(lower, layer, p); p < q ==> was.None? || was.value.Folder?
    ensures var was, now := Lookup(lower, layer, p), Lookup(lower, layer + [a], p);
            now == if p == q then Some(Leaf(n))
                   else if q < p then None
                   else if p < q && was.None? then Some(Folder(DefaultDirMode))
                   else was
  {
    Snoc(lower, layer, a, p);
    if p < q {
      ImpliedStep(lower, layer, a, p);
    } else if !(q <= p) {
      SilentStep(lower, layer, a, p);
    }
  }

  lemma RemovedWellFormed(t: Tree, p: Path)
    requires WellFormed(t) && p != []
    ensures WellFormed(Removed(t, p))
  {
    var r := Removed(t, p);
    forall q | q in r.nodes ensures Anchored(r, q) {
      assert Anchored(t, q);
    }
  }

  lemma WithDirsWellFormed(t: Tree, p: Path)
    requires WellFormed(t) && CanMakeDirs(t, p)
    ensures WellFormed(WithDirs(t, p))
    ensures p != [] ==> IsDir(WithDirs(t, p), p)
  {
    var r := WithDirs(t, p);
    forall q | q != [] ensures Tidy(r, q) && (IsDir(r, q) ==> q in r.modes) {
      assert Tidy(t, q) && (q in Prefixes(p) <==> q <= p);
    }
    forall q | q in r.nodes ensures Anchored(r, q) {
      if q in Prefixes(p) {
        assert |q| > 1 ==> q[..|q| - 1] in Prefixes(p);
      } else {
        assert Anchored(t, q);
      }
    }
  }

  // A whiteout keeps the tree and the union in step exactly when it spares its own layer.
  lemma WhiteoutStep(t: Tree, lower: seq<Layer>, layer: Layer, v: Path)
    requires Represents(t, lower, layer) && v != [] && Reachable(t, v)
    ensures Represents(Removed(t, v), lower, layer + [Whiteout(v)])
            <==> SparesOwnLayer(lower, layer, Whiteout(v))
  {
    var a := Whiteout(v);
    RemovedWellFormed(t, v);
    forall p | p != []
      ensures ViewOf(Removed(t, v), p) == Lookup(lower, layer + [a], p)
              <==> (v <= p ==> OwnOf(lower, layer, p) == Silent)
    {
      Snoc(lower, layer, a, p);
      assert ViewOf(t, p) == Lookup(lower, layer, p) && Tidy(t, p);
    }
  }

  lemma ViewWithDirs(t: Tree, d: Path, p: Path)
    requires p != [] && Tidy(t, p) && (p <= d && p in t.nodes ==> t.nodes[p].Dir?)
    ensures ViewOf(WithDirs(t, d), p)
            == if p <= d && p !in t.nodes then Some(Folder(DefaultDirMode)) else ViewOf(t, p)
  {
    assert p in Prefixes(d) <==> p <= d;
  }

  lemma ViewEmptied(t: Tree, d: Path, p: Path)
    ensures ViewOf(Emptied(t, d), p) == if d < p then None else ViewOf(t, p)
  {
  }

  lemma ViewRemoved(t: Tree, q: Path, p: Path)
    ensures ViewOf(Removed(t, q), p) == if q <= p then None else ViewOf(t, p)
    ensures Tidy(t, p) ==> Tidy(Removed(t, q), p)
  {
  }

  lemma EmptiedWellFormed(t: Tree, d: Path)
    requires WellFormed(t)
    ensures WellFormed(Emptied(t, d))
  {
    var r := Emptied(t, d);
    forall q | q in r.nodes ensures Anchored(r, q) {
      assert Anchored(t, q);
    }
  }

  lemma OpaqueAt(t: Tree, lower: seq<Layer>, layer: Layer, d: Path, p: Path)
    requires ViewOf(t, p) == Lookup(lower, layer, p) && Tidy(t, p) && CanMakeDirs(t, d) && p != []
    ensures ViewOf(Emptied(WithDirs(t, d), d), p) == Lookup(lower, layer + [Opaque(d)], p)
            <==> (d < p ==> OwnOf(lower, layer, p) == Silent)
  {
    Snoc(lower, layer, Opaque(d), p);
    ViewWithDirs(t, d, p);
    ViewEmptied(WithDirs(t, d), d, p);
    if p <= d {
      ImpliedStep(lower, layer, Opaque(d), p);
    }
  }

  lemma OpaqueStep(t: Tree, lower: seq<Layer>, layer: Layer, d: Path)
    requires Represents(t, lower, layer) && CanMakeDirs(t, d)
    ensures Represents(Emptied(WithDirs(t, d), d), lower, layer + [Opaque(d)])
            <==> SparesOwnLayer(lower, layer, Opaque(d))
  {
    WithDirsWellFormed(t, d);
    EmptiedWellFormed(WithDirs(t, d), d);
    forall p | p != []
      ensures ViewOf(Emptied(WithDirs(t, d), d), p) == Lookup(lower, layer + [Opaque(d)], p)
              <==> (d < p ==> OwnOf(lower, layer, p) == Silent)
    {
      assert ViewOf(t, p) == Lookup(lower, layer, p) && Tidy(t, p);
      OpaqueAt(t, lower, layer, d, p);
    }
  }

  // A new leaf in an existing directory leaves every node anchored.
  lemma LeafAnchored(made: Tree, q: Path, n: Node)
    requires WellFormed(made) && q != [] && q !in made.nodes && q !in made.modes && !n.Dir?
    requires |q| > 1 ==> IsDir(made, Parent(q))
    ensures WellFormed(made.(nodes := made.nodes[q := n]))
  {
    var r := made.(nodes := made.nodes[q := n]);
    forall p | p in r.nodes ensures Anchored(r, p) {
      if p != q {
        assert Anchored(made, p);
      }
    }
    forall p | p in r.modes && p != [] ensures Tidy(r, p) {
      assert Tidy(made, p);
    }
  }

  lemma LeafWellFormed(t: Tree, q: Path, n: Node)
    requires WellFormed(t) && !n.Dir? && ApplyLeaf(t, q, n).Some?
    ensures WellFormed(ApplyLeaf(t, q, n).value)
  {
    var cleared := Removed(t, q);
    RemovedWellFormed(t, q);
    WithDirsWellFormed(cleared, Parent(q));
    var made := WithDirs(cleared, Parent(q));
    var r := made.(nodes := made.nodes[q := n]);
    assert q !in made.nodes && q !in made.modes;
    LeafAnchored(made, q, n);
  }

  ghost predicate PutsLeaf(lower: seq<Layer>, layer: Layer, a: Action, q: Path, n: Node) {
    || a == PutLeaf(q, n)
    || (a.PutHardlink? && a.path == q && Lookup(lower, layer, a.target) == Some(Leaf(n)))
  }

  lemma LeafView(t: Tree, q: Path, n: Node, p: Path)
    requires Tidy(t, p) && !n.Dir? && ApplyLeaf(t, q, n).Some? && p != []
    ensures p < q && p in t.nodes ==> t.nodes[p].Dir?
    ensures ViewOf(ApplyLeaf(t, q, n).value, p)
            == if p == q then Some(Leaf(n))
               else if q < p then None
               else if p < q && p !in t.nodes then Some(Folder(DefaultDirMode))
               else ViewOf(t, p)
  {
    ViewRemoved(t, q, p);
    if p != q {
      if p <= q { ProperPrefix(p, q); }
      ViewWithDirs(Removed(t, q), Parent(q), p);
    }
  }

  lemma LeafAt(t: Tree, lower: seq<Layer>, layer: Layer, a: Action, q: Path, n: Node, p: Path)
    requires ViewOf(t, p) == Lookup(lower, layer, p) && Tidy(t, p) && !n.Dir? && ApplyLeaf(t, q, n).Some? && p != []
    requires PutsLeaf(lower, layer, a, q, n)
    ensures ViewOf(ApplyLeaf(t, q, n).value, p) == Lookup(lower, layer + [a], p)
  {
    LeafView(t, q, n, p);
    LeafLookup(lower, layer, a, q, n, p);
  }

  lemma LeafStep(t: Tree, lower: seq<Layer>, layer: Layer, a: Action, q: Path, n: Node)
    requires Represents(t, lower, layer) && !n.Dir? && ApplyLeaf(t, q, n).Some?
    requires PutsLeaf(lower, layer, a, q, n)
    ensures Represents(ApplyLeaf(t, q, n).value, lower, layer + [a])
  {
    LeafWellFormed(t, q, n);
    forall p | p != [] ensures ViewOf(ApplyLeaf(t, q, n).value, p) == Lookup(lower, layer + [a], p) {
      assert ViewOf(t, p) == Lookup(lower, layer, p) && Tidy(t, p);
      LeafAt(t, lower, layer, a, q, n, p);
    }
  }

  lemma DirWellFormed(t: Tree, q: Path, m: nat)
    requires WellFormed(t) && Apply(t, PutDir(q, m)).Some?
    ensures WellFormed(Apply(t, PutDir(q, m)).value)
  {
    var cleared := if IsDir(t, q) then t else Removed(t, q);
    RemovedWellFormed(t, q);
    WithDirsWellFormed(cleared, q);
    var made := WithDirs(cleared, q);
    var r := made.(modes := made.modes[q := m]);
    forall p | p in r.nodes ensures Anchored(r, p) {
      assert Anchored(made, p);
    }
  }

  lemma DirView(t: Tree, q: Path, m: nat, p: Path)
    requires Tidy(t, p) && Apply(t, PutDir(q, m)).Some? && p != []
    ensures p < q && p in t.nodes ==> t.nodes[p].Dir?
    ensures ViewOf(Apply(t, PutDir(q, m)).value, p)
            == if p == q then Some(Folder(m))
               else if q < p && !IsDir(t, q) then None
               else if p < q && p !in t.nodes then Some(Folder(DefaultDirMode))
               else ViewOf(t, p)
  {
    var cleared := if IsDir(t, q) then t else Removed(t, q);
    ViewRemoved(t, q, p);
    ViewWithDirs(cleared, q, p);
  }

  lemma DirAt(t: Tree, lower: seq<Layer>, layer: Layer, q: Path, m: nat, p: Path)
    requires ViewOf(t, p) == Lookup(lower, layer, p) && Tidy(t, p) && Apply(t, PutDir(q, m)).Some? && p != []
    requires q < p && !IsDir(t, q) ==> p !in t.nodes
    ensures ViewOf(Apply(t, PutDir(q, m)).value, p) == Lookup(lower, layer + [PutDir(q, m)], p)
  {
    DirView(t, q, m, p);
    DirLookup(lower, layer, q, m, p);
  }

  lemma DirStep(t: Tree, lower: seq<Layer>, layer: Layer, q: Path, m: nat)
    requires Represents(t, lower, layer) && Apply(t, PutDir(q, m)).Some?
    ensures Represents(Apply(t, PutDir(q, m)).value, lower, layer + [PutDir(q, m)])
  {
    DirWellFormed(t, q, m);
    forall p | p != []
      ensures ViewOf(Apply(t, PutDir(q, m)).value, p) == Lookup(lower, layer + [PutDir(q, m)], p)
    {
      if q < p && !IsDir(t, q) {
        NothingUnderLeaf(t, q, p);
      }
      assert ViewOf(t, p) == Lookup(lower, layer, p) && Tidy(t, p);
      DirAt(t, lower, layer, q, m, p);
    }
  }

  lemma ApplyWellFormed(t: Tree, a: Action)
    requires WellFormed(t) && ActionOk(a) && Apply(t, a).Some?
    ensures WellFormed(Apply(t, a).value)
  {
    match a
    case Whiteout(v) => RemovedWellFormed(t, v);
    case Opaque(d) => WithDirsWellFormed(t, d); EmptiedWellFormed(WithDirs(t, d), d);
    case PutDir(q, m) => DirWellFormed(t, q, m);
    case PutLeaf(q, n) => LeafWellFormed(t, q, n);
    case PutHardlink(q, target) => LeafWellFormed(t, q, t.nodes[target]);
    case Skip =>
    case RootMode(m) =>
      var r := Apply(t, a).value;
      forall p | p in r.nodes ensures Anchored(r, p) {
        assert Anchored(t, p);
      }
      forall p | p in r.modes && p != [] ensures Tidy(r, p) {
        assert Tidy(t, p);
      }
  }

  // Applying one entry to the tree of a history gives the tree of the longer history.
  lemma StepRepresents(t: Tree, lower: seq<Layer>, layer: Layer, a: Action)
    requires Represents(t, lower, layer) && ActionOk(a) && Apply(t, a).Some?
    ensures Represents(Apply(t, a).value, lower, layer + [a]) <==> SparesOwnLayer(lower, layer, a)
  {
    match a
    case Whiteout(v) => WhiteoutStep(t, lower, layer, v);
    case Opaque(d) => OpaqueStep(t, lower, layer, d);
    case PutDir(q, m) => DirStep(t, lower, layer, q, m);
    case PutLeaf(q, n) => LeafStep(t, lower, layer, a, q, n);
    case PutHardlink(q, target) =>
      assert ViewOf(t, target) == Lookup(lower, layer, target);
      LeafStep(t, lower, layer, a, q, t.nodes[target]);
    case _ =>
      ApplyWellFormed(t, a);
      forall p | p != [] ensures ViewOf(Apply(t, a).value, p) == Lookup(lower, layer + [a], p) {
        Snoc(lower, layer, a, p);
        assert ViewOf(t, p) == Lookup(lower, layer, p);
      }
  }

  /******* Whole layers *******/

  function ApplyLayer(t: Tree, layer: Layer): Option<Tree> {
    if layer == [] then Some(t) else
    var before := ApplyLayer(t, layer[..|layer| - 1]);
    if before.None? then None else Apply(before.value, layer[|layer| - 1])
  }

  lemma ApplyLayerMore(t: Tree, layer: Layer, a: Action)
    ensures var before := ApplyLayer(t, layer);
            ApplyLayer(t, layer + [a]) == if before.None? then None else Apply(before.value, a)
  {
    assert (layer + [a])[..|layer|] == layer;
  }

  function ApplyLayers(layers: seq<Layer>): Option<Tree> {
    if layers == [] then Some(EmptyTree) else
    var before := ApplyLayers(layers[..|layers| - 1]);
    if before.None? then None else ApplyLayer(before.value, layers[|layers| - 1])
  }

  lemma ApplyLayersMore(lower: seq<Layer>, top: Layer)
    ensures var before := ApplyLayers(lower);
            ApplyLayers(lower + [top]) == if before.None? then None else ApplyLayer(before.value, top)
  {
    assert (lower + [top])[..|lower|] == lower;
  }

  // The declarative union of a stack of layers, lowest first.
  ghost function Union(layers: seq<Layer>, p: Path): Option<View> {
    Lookup(layers, [], p)
  }

  ghost predicate Orderly(lower: seq<Layer>, layer: Layer) {
    forall i :: 0 <= i < |layer| ==> SparesOwnLayer(lower, layer[..i], layer[i])
  }

  lemma TopLayer(lower: seq<Layer>, layer: Layer, p: Path)
    ensures Union(lower + [layer], p) == Lookup(lower, layer, p)
  {
    var all := lower + [layer];
    assert all[..|all| - 1] == lower && all[|all| - 1] == layer;
    assert OwnOf(all, [], p) == Silent && !Hides([], p);
  }

  lemma {:induction false} LayerRepresents(t: Tree, lower: seq<Layer>, layer: Layer)
    requires Represents(t, lower, [])
    requires LayerOk(layer) && Orderly(lower, layer) && ApplyLayer(t, layer).Some?
    ensures Represents(ApplyLayer(t, layer).value, lower, layer)
    decreases |layer|
  {
    if layer != [] {
      var rest, last := layer[..|layer| - 1], layer[|layer| - 1];
      forall i | 0 <= i < |rest| ensures SparesOwnLayer(lower, rest[..i], rest[i]) {
        assert rest[..i] == layer[..i];
        assert SparesOwnLayer(lower, layer[..i], layer[i]);
      }
      LayerRepresents(t, lower, rest);
      StepRepresents(ApplyLayer(t, rest).value, lower, rest, last);
      assert rest + [last] == layer;
    }
  }

  // Whatever stream-order extraction accepts is the union of the layers.
  lemma {:induction false} ExtractionIsUnion(layers: seq<Layer>)
    requires forall k :: 0 <= k < |layers| ==> LayerOk(layers[k]) && Orderly(layers[..k], layers[k])
    requires ApplyLayers(layers).Some?
    ensures Represents(ApplyLayers(layers).value, layers, [])
    ensures forall p :: p != [] ==> ViewOf(ApplyLayers(layers).value, p) == Union(layers, p)
    decreases |layers|
  {
    if layers == [] {
      forall p ensures Lookup([], [], p) == None {}
    } else {
      var lower, top := layers[..|layers| - 1], layers[|layers| - 1];
      assert lower + [top] == layers;
      forall k | 0 <= k < |lower| ensures LayerOk(lower[k]) && Orderly(lower[..k], lower[k]) {
        assert lower[..k] == layers[..k];
        assert Orderly(layers[..k], layers[k]);
      }
      ExtractionIsUnion(lower);
      LayerRepresents(ApplyLayers(lower).value, lower, top);
      forall p ensures Lookup(layers, [], p) == Lookup(lower, top, p) {
        TopLayer(lower, top, p);
      }
    }
  }

  /******* What extraction accepts *******/

  // The union has a file or a link at q.
  ghost predicate IsLeaf(lower: seq<Layer>, layer: Layer, q: Path) {
    q != [] && Lookup(lower, layer, q).Some? && Lookup(lower, layer, q).value.Leaf?
  }

  ghost predicate NoLeafAbove(lower: seq<Layer>, layer: Layer, p: Path) {
    forall q :: q < p ==> !IsLeaf(lower, layer, q)
  }

  // The union of what came before leaves room for the entry: nothing but directories above its place -
  // for an opaque marker, at its directory too - and a hard link has a file to link to, which is not
  // under its own path.
  ghost predicate Acceptable(lower: seq<Layer>, layer: Layer, a: Action) {
    match a
    case Skip => true
    case RootMode(_) => true
    case Opaque(d) => NoLeafAbove(lower, layer, d) && !IsLeaf(lower, layer, d)
    case Whiteout(v) => NoLeafAbove(lower, layer, v)
    case PutDir(p, _) => NoLeafAbove(lower, layer, p)
    case PutLeaf(p, _) => NoLeafAbove(lower, layer, p)
    case PutHardlink(p, target) =>
      && NoLeafAbove(lower, layer, p) && !(p <= target)
      && IsLeaf(lower, layer, target) && Lookup(lower, layer, target).value.node.File?
  }

  lemma ReachableIff(t: Tree, lower: seq<Layer>, layer: Layer, p: Path)
    requires Represents(t, lower, layer)
    ensures Reachable(t, p) <==> NoLeafAbove(lower, layer, p)
    ensures CanMakeDirs(t, p) <==> NoLeafAbove(lower, layer, p) && !IsLeaf(lower, layer, p)
  {
    forall q | q <= p ensures IsLeaf(lower, layer, q) <==> q in t.nodes && !t.nodes[q].Dir? {
      assert q != [] ==> ViewOf(t, q) == Lookup(lower, layer, q);
    }
    if CanMakeDirs(t, p) {
      forall q | q < p ensures !IsLeaf(lower, layer, q) {
        assert q <= p;
      }
    }
    if !CanMakeDirs(t, p) {
      var q :| q in t.nodes && q <= p && !t.nodes[q].Dir?;
      assert IsLeaf(lower, layer, q) && (q == p || q < p);
    }
    if !NoLeafAbove(lower, layer, p) {
      var q :| q < p && IsLeaf(lower, layer, q);
    }
  }

  // An entry is applied exactly when it is acceptable.
  lemma AppliesIff(t: Tree, lower: seq<Layer>, layer: Layer, a: Action)
    requires Represents(t, lower, layer) && ActionOk(a)
    ensures Apply(t, a).Some? <==> Acceptable(lower, layer, a)
  {
    match a
    case Opaque(d) => ReachableIff(t, lower, layer, d);
    case Whiteout(v) => ReachableIff(t, lower, layer, v);
    case PutDir(p, _) =>
      ReachableIff(t, lower, layer, p);
    case PutLeaf(p, n) =>
      ReachableIff(t, lower, layer, p);
      LeafGoesIn(t, p, n);
    case PutHardlink(p, target) =>
      HardlinkIff(t, lower, layer, p, target);
    case _ =>
  }

  lemma LeafGoesIn(t: Tree, p: Path, n: Node)
    requires p != []
    ensures ApplyLeaf(t, p, n).Some? <==> Reachable(t, p)
  {
    if Reachable(t, p) {
      forall q | q in Removed(t, p).nodes && q <= Parent(p) ensures Removed(t, p).nodes[q].Dir? {
        assert q < p;
      }
    }
  }

  lemma HardlinkIff(t: Tree, lower: seq<Layer>, layer: Layer, p: Path, target: Path)
    requires Represents(t, lower, layer) && p != []
    ensures Apply(t, PutHardlink(p, target)).Some? <==> Acceptable(lower, layer, PutHardlink(p, target))
  {
    ReachableIff(t, lower, layer, p);
    if target in t.nodes {
      assert Anchored(t, target) && target != [];
      assert ViewOf(t, target) == Lookup(lower, layer, target);
      LeafGoesIn(t, p, t.nodes[target]);
      forall q | q in t.nodes && q < target ensures t.nodes[q].Dir? {
        ParentsAreDirs(t, q, target);
      }
    } else if target != [] {
      assert ViewOf(t, target) == Lookup(lower, layer, target);
    }
  }

  // What the union has, it has below directories.
  lemma NothingAbovePresent(t: Tree, lower: seq<Layer>, layer: Layer, p: Path)
    requires Represents(t, lower, layer) && p != [] && Lookup(lower, layer, p).Some?
    ensures NoLeafAbove(lower, layer, p)
  {
    assert ViewOf(t, p) == Lookup(lower, layer, p);
    forall q | q < p ensures !IsLeaf(lower, layer, q) {
      if q != [] {
        ParentsAreDirs(t, q, p);
        assert ViewOf(t, q) == Lookup(lower, layer, q);
      }
    }
  }

  // So a directory merges with the one that is there, and what is there can be deleted and linked to.
  lemma PresentAccepts(t: Tree, lower: seq<Layer>, layer: Layer, p: Path, m: nat)
    requires Represents(t, lower, layer) && p != [] && Lookup(lower, layer, p).Some?
    ensures Acceptable(lower, layer, PutDir(p, m)) && Acceptable(lower, layer, Whiteout(p))
    ensures forall q, n :: Lookup(lower, layer, p) == Some(Leaf(n)) && n.File? && NoLeafAbove(lower, layer, q) && !(q <= p) ==>
              Acceptable(lower, layer, PutHardlink(q, p))
  {
    NothingAbovePresent(t, lower, layer, p);
  }

  ghost predicate AllAcceptable(lower: seq<Layer>, layer: Layer) {
    forall i :: 0 <= i < |layer| ==> Acceptable(lower, layer[..i], layer[i])
  }

  lemma OrderlyPrefix(lower: seq<Layer>, layer: Layer, n: nat)
    requires n <= |layer| && LayerOk(layer) && Orderly(lower, layer)
    ensures LayerOk(layer[..n]) && Orderly(lower, layer[..n])
  {
    forall i | 0 <= i < n ensures SparesOwnLayer(lower, layer[..n][..i], layer[..n][i]) {
      assert layer[..n][..i] == layer[..i];
      assert SparesOwnLayer(lower, layer[..i], layer[i]);
    }
  }

  lemma {:induction false} LayerAppliesIff(t: Tree, lower: seq<Layer>, layer: Layer)
    requires Represents(t, lower, []) && LayerOk(layer) && Orderly(lower, layer)
    ensures ApplyLayer(t, layer).Some? <==> AllAcceptable(lower, layer)
    decreases |layer|
  {
    if layer != [] {
      var rest, last := layer[..|layer| - 1], layer[|layer| - 1];
      OrderlyPrefix(lower, layer, |layer| - 1);
      LayerAppliesIff(t, lower, rest);
      AllAcceptableSnoc(lower, layer);
      if ApplyLayer(t, rest).Some? {
        LayerRepresents(t, lower, rest);
        AppliesIff(ApplyLayer(t, rest).value, lower, rest, last);
      }
    }
  }

  lemma AllAcceptableSnoc(lower: seq<Layer>, layer: Layer)
    requires layer != []
    ensures var n := |layer| - 1; AllAcceptable(lower, layer) <==> AllAcceptable(lower, layer[..n]) && Acceptable(lower, layer[..n], layer[n])
  {
    var n := |layer| - 1;
    var rest := layer[..n];
    forall i | 0 <= i < n ensures rest[..i] == layer[..i] && rest[i] == layer[i] {}
    if AllAcceptable(lower, layer) {
      forall i | 0 <= i < n ensures Acceptable(lower, rest[..i], rest[i]) {
        assert Acceptable(lower, layer[..i], layer[i]);
      }
    }
    if AllAcceptable(lower, rest) && Acceptable(lower, rest, layer[n]) {
      forall i | 0 <= i < |layer| ensures Acceptable(lower, layer[..i], layer[i]) {
        assert i < n ==> Acceptable(lower, rest[..i], rest[i]);
      }
    }
  }

  ghost predicate StackAcceptable(layers: seq<Layer>) {
    forall k :: 0 <= k < |layers| ==> AllAcceptable(layers[..k], layers[k])
  }

  ghost predicate StackOrderly(layers: seq<Layer>) {
    forall k :: 0 <= k < |layers| ==> LayerOk(layers[k]) && Orderly(layers[..k], layers[k])
  }

  // A stack of orderly layers is accepted exactly when the union has room for each entry in its turn.
  lemma {:induction false} StackAppliesIff(layers: seq<Layer>)
    requires StackOrderly(layers)
    ensures ApplyLayers(layers).Some? <==> StackAcceptable(layers)
    decreases |layers|
  {
    if layers != [] {
      var n := |layers| - 1;
      var lower, top := layers[..n], layers[n];
      forall k | 0 <= k < n ensures lower[..k] == layers[..k] && lower[k] == layers[k] {}
      forall k | 0 <= k < n ensures LayerOk(lower[k]) && Orderly(lower[..k], lower[k]) {
        assert Orderly(layers[..k], layers[k]);
      }
      StackAppliesIff(lower);
      StackSnoc(layers);
      if ApplyLayers(lower).Some? {
        ExtractionIsUnion(lower);
        LayerAppliesIff(ApplyLayers(lower).value, lower, top);
      }
    }
  }

  lemma StackSnoc(layers: seq<Layer>)
    requires layers != []
    ensures var n := |layers| - 1; StackAcceptable(layers) <==> StackAcceptable(layers[..n]) && AllAcceptable(layers[..n], layers[n])
  {
    var n := |layers| - 1;
    var lower := layers[..n];
    forall k | 0 <= k < n ensures lower[..k] == layers[..k] && lower[k] == layers[k] {}
    if StackAcceptable(layers) {
      forall k | 0 <= k < n ensures AllAcceptable(lower[..k], lower[k]) {
        assert AllAcceptable(layers[..k], layers[k]);
      }
    }
    if StackAcceptable(lower) && AllAcceptable(lower, layers[n]) {
      forall k | 0 <= k < |layers| ensures AllAcceptable(layers[..k], layers[k]) {
        assert k < n ==> AllAcceptable(lower[..k], lower[k]);
      }
    }
  }

  /******* The order a tar stream has to keep *******/

  // Where an entry puts something.
  ghost predicate PutsAt(a: Action, p: Path) {
    match a
    case Opaque(d) => d == p
    case PutDir(q, _) => q == p
    case PutLeaf(q, _) => q == p
    case PutHardlink(q, _) => q == p
    case _ => false
  }

  // Deletion markers come before anything their layer puts in the deleted place.
  ghost predicate DeletesFirst(layer: Layer) {
    forall i, j, p :: 0 <= i < j < |layer| && PutsAt(layer[i], p) ==>
      && (layer[j].Whiteout? ==> !(layer[j].victim <= p))
      && (layer[j].Opaque? ==> !(layer[j].dir < p))
  }

  lemma {:induction false} UntouchedIsSilent(lower: seq<Layer>, layer: Layer, v: Path, p: Path)
    requires v <= p
    requires forall i, q :: 0 <= i < |layer| && PutsAt(layer[i], q) ==> !(v <= q)
    ensures OwnOf(lower, layer, p) == Silent
    decreases |layer|
  {
    if layer != [] {
      var last := layer[|layer| - 1];
      UntouchedIsSilent(lower, layer[..|layer| - 1], v, p);
      if last.Opaque? { assert PutsAt(last, last.dir); }
      if last.PutDir? || last.PutLeaf? || last.PutHardlink? { assert PutsAt(last, last.path); }
    }
  }

  lemma DeletesFirstIsOrderly(lower: seq<Layer>, layer: Layer)
    requires DeletesFirst(layer)
    ensures Orderly(lower, layer)
  {
    forall j | 0 <= j < |layer| ensures SparesOwnLayer(lower, layer[..j], layer[j]) {
      match layer[j]
      case Whiteout(v) =>
        forall p | v <= p ensures OwnOf(lower, layer[..j], p) == Silent {
          UntouchedIsSilent(lower, layer[..j], v, p);
        }
      case Opaque(d) =>
        forall p | d < p ensures OwnOf(lower, layer[..j], p) == Silent {
          var v := p[..|d| + 1];
          forall i, q | 0 <= i < j && PutsAt(layer[i], q) ensures !(v <= q) {
            assert v <= q ==> d < q;
          }
          UntouchedIsSilent(lower, layer[..j], v, p);
        }
      case _ =>
    }
  }

  // A path some layer hides and no layer above puts back stays deleted.
  lemma {:induction false} DeletedStaysDeleted(layers: seq<Layer>, k: nat, p: Path)
    requires k < |layers| && Hides(layers[k], p)
    requires forall j :: k <= j < |layers| ==> OwnOf(layers[..j], layers[j], p) == Silent
    ensures Union(layers, p) == None
    decreases |layers|
  {
    var lower, top := layers[..|layers| - 1], layers[|layers| - 1];
    assert lower + [top] == layers;
    assert OwnOf(lower, top, p) == Silent;
    SilentTop(lower, top, p);
    if k < |lower| {
      forall j | k <= j < |lower| ensures OwnOf(lower[..j], lower[j], p) == Silent {
        assert lower[..j] == layers[..j];
      }
      DeletedStaysDeleted(lower, k, p);
    }
  }

  // Under a layer that says nothing about p, the layers below decide unless it hides them.
  lemma SilentTop(lower: seq<Layer>, top: Layer, p: Path)
    requires OwnOf(lower, top, p) == Silent
    ensures Union(lower + [top], p) == if Hides(top, p) then None else Union(lower, p)
  {
    TopLayer(lower, top, p);
    if lower == [] {
      assert Lookup([], [], p) == None;
    } else {
      var l, t := lower[..|lower| - 1], lower[|lower| - 1];
      assert l + [t] == lower;
      TopLayer(l, t, p);
    }
  }

  // Without that order the stream deletes its own layer's file, which the union keeps.
  lemma LateWhiteoutDiffers(node: Node)
    requires !node.Dir?
    ensures var layer := [PutLeaf(["f"], node), Whiteout(["f"])];
            && !DeletesFirst(layer)
            && ApplyLayers([layer]).Some?
            && ViewOf(ApplyLayers([layer]).value, ["f"]) == None
            && Union([layer], ["f"]) == Some(Leaf(node))
  {
    var layer := [PutLeaf(["f"], node), Whiteout(["f"])];
    var first := [PutLeaf(["f"], node)];
    assert PutsAt(layer[0], ["f"]) && layer[1].victim <= ["f"];
    assert layer[..1] == first && first[..0] == [];
    assert [layer][..0] == [];
    assert ApplyLayer(EmptyTree, []) == Some(EmptyTree);
    assert ApplyLayer(EmptyTree, first) == Apply(EmptyTree, first[0]);
    assert ApplyLayer(EmptyTree, layer) == Apply(ApplyLayer(EmptyTree, first).value, layer[1]);
    assert ApplyLayers([]) == Some(EmptyTree);
    assert ApplyLayers([layer]) == ApplyLayer(EmptyTree, layer);
    assert OwnOf([], first, ["f"]) == OwnLeaf(node);
    assert OwnOf([], layer, ["f"]) == OwnLeaf(node);
    assert [] + [layer] == [layer];
    TopLayer([], layer, ["f"]);
  }
}
