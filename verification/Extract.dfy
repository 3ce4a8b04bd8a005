/**
 Extraction of a FileSet: tar entries are validated and applied one by one to the rootfs.

 `Interpret` is the reading of one header; `Step` is its whole effect, limits included; the
 class `Extraction` is the extractor, whose methods change the rootfs in place.
 */
module Extract {
  import opened Wrappers
  import opened RootFs
  import opened LayerUnion
  import opened Text

  const WhiteoutPrefix := ".wh."
  const OpaqueMarker := ".wh..wh..opq"

  // The budget of one copy never reaches the largest 64-bit integer.
  const MaxCopy: nat := 0x7fff_ffff_ffff_fffe

  datatype Kind = Directory | Regular | Symlink | Hardlink | Special

  datatype Header = Header(name: string, kind: Kind, mode: nat, linkname: string, content: Bytes)

  datatype Limits = Limits(maxBytes: nat, maxFiles: nat, maxDepth: nat)

  // setuid, setgid and sticky are above the low nine bits and are dropped.
  function Perm(mode: nat): (p: nat)
    ensures p < 512 && (mode < 512 ==> p == mode)
  {
    mode % 512
  }

  // Only the low nine bits count.
  lemma PermIgnoresHigh(mode: nat, high: nat)
    ensures Perm(mode + 512 * high) == Perm(mode)
  {
  }

  predicate HasDriveLetter(name: string) {
    |name| >= 2 && name[1] == ':' && ('a' <= name[0] <= 'z' || 'A' <= name[0] <= 'Z')
  }

  // path.Clean of a relative name without "..": empty and "." segments disappear.
  function Kept(segments: seq<string>): (p: Path)
    ensures forall i | 0 <= i < |p| :: p[i] != "" && p[i] != "."
  {
    if segments == [] then []
    else if segments[0] == "" || segments[0] == "." then Kept(segments[1..])
    else [segments[0]] + Kept(segments[1..])
  }

  function CleanEntryPath(name: string): Option<Path> {
    if name == "" || '\0' in name || '\\' in name || HasPrefix(name, "/") || HasDriveLetter(name) then None
    else if ".." in Split(name, '/') then None
    else Some(Kept(Split(name, '/')))
  }

  // A relative link target climbs above the rootfs from a directory at the given depth.
  predicate Escapes(depth: nat, segments: seq<string>)
    decreases segments
  {
    if segments == [] then false
    else if segments[0] == "" || segments[0] == "." then Escapes(depth, segments[1..])
    else if segments[0] == ".." then depth == 0 || Escapes(depth - 1, segments[1..])
    else Escapes(depth + 1, segments[1..])
  }

  // How far above its start a relative path ends.
  function Climb(segments: seq<string>): int {
    if segments == [] then 0 else Rise(segments[0]) + Climb(segments[1..])
  }

  function Rise(segment: string): int {
    if segment == "" || segment == "." then 0 else if segment == ".." then 1 else -1
  }

  lemma ClimbFirst(segments: seq<string>, n: nat)
    requires 0 < n <= |segments|
    ensures Climb(segments[..n]) == Rise(segments[0]) + Climb(segments[1..][..n - 1])
  {
    assert segments[..n][1..] == segments[1..][..n - 1];
  }

  ghost predicate ClimbsAbove(depth: nat, segments: seq<string>) {
    exists n :: 0 <= n <= |segments| && Climb(segments[..n]) > depth
  }

  // A target is refused exactly when some point of it lies above the rootfs.
  lemma {:induction false} EscapesIff(depth: nat, segments: seq<string>)
    ensures Escapes(depth, segments) <==> ClimbsAbove(depth, segments)
    decreases segments
  {
    if segments == [] {
      assert segments[..0] == [];
    } else {
      var rest := segments[1..];
      var rise := Rise(segments[0]);
      if rise > depth {
        ClimbFirst(segments, 1);
        assert Climb(rest[..0]) == 0;
        assert Climb(segments[..1]) > depth;
      } else {
        EscapesIff(depth - rise, rest);
        if ClimbsAbove(depth - rise, rest) {
          var n :| 0 <= n <= |rest| && Climb(rest[..n]) > depth - rise;
          ClimbFirst(segments, n + 1);
          assert Climb(segments[..n + 1]) > depth;
        }
        if ClimbsAbove(depth, segments) {
          var n :| 0 <= n <= |segments| && Climb(segments[..n]) > depth;
          ClimbFirst(segments, n);
          assert Climb(rest[..n - 1]) > depth - rise;
        }
      }
    }
  }

  // An accepted entry name stays inside the rootfs and names no separator of another platform.
  lemma EntryStaysInside(name: string)
    requires CleanEntryPath(name).Some?
    ensures forall seg :: seg in CleanEntryPath(name).value ==>
              seg != "" && seg != "." && seg != ".." && '/' !in seg && '\\' !in seg
  {
    var parts := Split(name, '/');
    KeptIsFilter(parts);
    forall seg | seg in CleanEntryPath(name).value ensures '\\' !in seg && '/' !in seg {
      PartOfJoin(parts, '/', seg);
    }
  }

  lemma {:induction false} KeptIsFilter(segments: seq<string>)
    ensures forall seg :: seg in Kept(segments) <==> seg in segments && seg != "" && seg != "."
  {
    if segments != [] {
      KeptIsFilter(segments[1..]);
    }
  }

  lemma {:induction false} PartOfJoin(parts: seq<string>, sep: char, part: string)
    requires part in parts
    ensures forall c :: c in part ==> c in Join(parts, sep)
  {
    if |parts| > 1 && part != parts[0] {
      PartOfJoin(parts[1..], sep, part);
    }
  }

  predicate LinkTargetOk(p: Path, target: string)
    requires p != []
  {
    && target != "" && !HasPrefix(target, "/") && !HasDriveLetter(target) && '\\' !in target
    && !Escapes(|p| - 1, Split(target, '/'))
  }

  predicate IsMarker(p: Path) {
    p != [] && HasPrefix(p[|p| - 1], WhiteoutPrefix)
  }

  // The action of one header; None is a rejection.
  function Interpret(h: Header): (r: Option<Action>)
    ensures r.Some? ==> ActionOk(r.value)
  {
    var clean := CleanEntryPath(h.name);
    if clean.None? then None else
    var p := clean.value;
    if IsMarker(p) then
      var base := p[|p| - 1];
      var victim := base[|WhiteoutPrefix|..];
      if base == OpaqueMarker then Some(Opaque(Parent(p)))
      else if victim == "" || victim == "." || victim == ".." then None
      else Some(Whiteout(Parent(p) + [victim]))
    else if p == [] then
      if h.kind.Directory? then Some(RootMode(Perm(h.mode))) else None
    else
      match h.kind
      case Directory => Some(PutDir(p, Perm(h.mode)))
      case Regular => Some(PutLeaf(p, File(h.content, Perm(h.mode))))
      case Symlink => if LinkTargetOk(p, h.linkname) then Some(PutLeaf(p, Link(h.linkname))) else None
      case Hardlink =>
        var target := CleanEntryPath(h.linkname);
        if target.None? then None else Some(PutHardlink(p, target.value))
      case Special => Some(Skip)
  }

  datatype State = State(tree: Tree, files: nat, bytes: nat, ignored: nat)

  const Start := State(EmptyTree, 0, 0, 0)

  predicate Fits(lim: Limits, st: State, depth: nat) {
    depth <= lim.maxDepth && st.files + 1 <= lim.maxFiles
  }

  predicate HasBudget(lim: Limits, bytes: nat, size: nat) {
    size <= Min(lim.maxBytes - bytes, MaxCopy)
  }

  // The whole effect of one header: None when the extraction aborts.
  function Step(lim: Limits, st: State, h: Header): Option<State> {
    var act := Interpret(h);
    if act.None? then None
    else Effect(lim, st, h.kind, |h.content|, |CleanEntryPath(h.name).value|, act.value)
  }

  // The limits apply to nodes, not to deletion markers or the rootfs.
  function Effect(lim: Limits, st: State, kind: Kind, size: nat, depth: nat, act: Action): Option<State> {
    match act
    case Opaque(_) => WithTree(st, Apply(st.tree, act))
    case Whiteout(_) => WithTree(st, Apply(st.tree, act))
    case RootMode(_) => WithTree(st, Apply(st.tree, act))
    case Skip => if Fits(lim, st, depth) then Some(st.(ignored := st.ignored + 1)) else None
    case _ =>
      var copied := if kind.Regular? then size else 0;
      if !Fits(lim, st, depth) || (kind.Regular? && !HasBudget(lim, st.bytes, size)) then None
      else WithTree(st.(files := st.files + 1, bytes := st.bytes + copied), Apply(st.tree, act))
  }

  // The effect of an entry for a node, kind by kind.
  lemma NodeStep(lim: Limits, st: State, h: Header, p: Path)
    requires CleanEntryPath(h.name) == Some(p) && p != [] && !IsMarker(p)
    ensures var more := st.(files := st.files + 1);
            Step(lim, st, h) ==
            if !Fits(lim, st, |p|) then None else
            match h.kind
            case Directory => WithTree(more, Apply(st.tree, PutDir(p, Perm(h.mode))))
            case Regular =>
              if !HasBudget(lim, st.bytes, |h.content|) then None
              else WithTree(more.(bytes := st.bytes + |h.content|), ApplyLeaf(st.tree, p, File(h.content, Perm(h.mode))))
            case Symlink =>
              if !LinkTargetOk(p, h.linkname) then None else WithTree(more, ApplyLeaf(st.tree, p, Link(h.linkname)))
            case Hardlink =>
              var target := CleanEntryPath(h.linkname);
              if target.None? then None else WithTree(more, Apply(st.tree, PutHardlink(p, target.value)))
            case Special => Some(st.(ignored := st.ignored + 1))
  {
  }

  // The effect of a deletion marker.
  lemma MarkerStep(lim: Limits, st: State, h: Header, p: Path)
    requires CleanEntryPath(h.name) == Some(p) && IsMarker(p)
    ensures var base := p[|p| - 1];
            var victim := base[|WhiteoutPrefix|..];
            Step(lim, st, h) == WithTree(st, if base == OpaqueMarker then Apply(st.tree, Opaque(Parent(p)))
                                             else if victim == "" || victim == "." || victim == ".." then None
                                             else Apply(st.tree, Whiteout(Parent(p) + [victim])))
  {
  }

  function WithTree(st: State, t: Option<Tree>): Option<State> {
    if t.None? then None else Some(st.(tree := t.value))
  }

  function Steps(lim: Limits, st: State, hs: seq<Header>): Option<State> {
    if hs == [] then Some(st) else
    var before := Steps(lim, st, hs[..|hs| - 1]);
    if before.None? then None else Step(lim, before.value, hs[|hs| - 1])
  }

  // All layers, lowest first.
  function AllSteps(lim: Limits, layers: seq<seq<Header>>): Option<State> {
    if layers == [] then Some(Start) else
    var before := AllSteps(lim, layers[..|layers| - 1]);
    if before.None? then None else Steps(lim, before.value, layers[|layers| - 1])
  }

  lemma StepWellFormed(lim: Limits, st: State, h: Header)
    requires WellFormed(st.tree) && Step(lim, st, h).Some?
    ensures WellFormed(Step(lim, st, h).value.tree)
  {
    StepIsApply(lim, st, h);
    ApplyWellFormed(st.tree, Interpret(h).value);
  }

  lemma {:induction false} StepsStop(lim: Limits, st: State, hs: seq<Header>, n: nat)
    requires n <= |hs| && Steps(lim, st, hs[..n]).None?
    ensures Steps(lim, st, hs).None?
    decreases |hs| - n
  {
    if n == |hs| {
      assert hs[..n] == hs;
    } else {
      assert hs[..n + 1][..n] == hs[..n];
      StepsStop(lim, st, hs, n + 1);
    }
  }

  lemma AllStepsMore(lim: Limits, layers: seq<seq<Header>>, k: nat)
    requires k < |layers|
    ensures var before := AllSteps(lim, layers[..k]);
            AllSteps(lim, layers[..k + 1]) == if before.None? then None else Steps(lim, before.value, layers[k])
  {
    assert layers[..k + 1][..k] == layers[..k];
  }

  lemma {:induction false} AllStepsStop(lim: Limits, layers: seq<seq<Header>>, n: nat)
    requires n <= |layers| && AllSteps(lim, layers[..n]).None?
    ensures AllSteps(lim, layers).None?
    decreases |layers| - n
  {
    if n == |layers| {
      assert layers[..n] == layers;
    } else {
      AllStepsMore(lim, layers, n);
      AllStepsStop(lim, layers, n + 1);
    }
  }

  ghost predicate Readable(hs: seq<Header>) {
    forall i :: 0 <= i < |hs| ==> Interpret(hs[i]).Some?
  }

  // The actions of a layer whose every header is accepted.
  ghost function Actions(hs: seq<Header>): (layer: Layer)
    requires Readable(hs)
    ensures LayerOk(layer) && |layer| == |hs|
  {
    seq(|hs|, i requires 0 <= i < |hs| => Interpret(hs[i]).value)
  }

  lemma ActionsMore(hs: seq<Header>, h: Header)
    requires Readable(hs) && Interpret(h).Some?
    ensures Readable(hs + [h]) && Actions(hs + [h]) == Actions(hs) + [Interpret(h).value]
  {
  }

  lemma StepsSnoc(lim: Limits, st: State, hs: seq<Header>, h: Header)
    ensures Steps(lim, st, hs + [h]) == if Steps(lim, st, hs).None? then None else Step(lim, Steps(lim, st, hs).value, h)
  {
    assert (hs + [h])[..|hs|] == hs;
  }

  // An accepted header is its action applied to the tree.
  lemma StepIsApply(lim: Limits, st: State, h: Header)
    requires Step(lim, st, h).Some?
    ensures Interpret(h).Some? && Apply(st.tree, Interpret(h).value) == Some(Step(lim, st, h).value.tree)
  {
    EffectIsApply(lim, st, h.kind, |h.content|, |CleanEntryPath(h.name).value|, Interpret(h).value);
  }

  lemma EffectIsApply(lim: Limits, st: State, kind: Kind, size: nat, depth: nat, act: Action)
    requires Effect(lim, st, kind, size, depth, act).Some?
    ensures Apply(st.tree, act) == Some(Effect(lim, st, kind, size, depth, act).value.tree)
  {
  }

  // An accepted layer is its actions applied one after the other.
  ghost predicate AppliesAs(lim: Limits, st: State, hs: seq<Header>) {
    Steps(lim, st, hs).Some? ==>
      Readable(hs) && ApplyLayer(st.tree, Actions(hs)) == Some(Steps(lim, st, hs).value.tree)
  }

  lemma AppliesMore(lim: Limits, st: State, hs: seq<Header>, h: Header)
    requires AppliesAs(lim, st, hs)
    ensures AppliesAs(lim, st, hs + [h])
  {
    StepsSnoc(lim, st, hs, h);
    if Steps(lim, st, hs + [h]).Some? {
      StepIsApply(lim, Steps(lim, st, hs).value, h);
      ActionsMore(hs, h);
      ApplyLayerMore(st.tree, Actions(hs), Interpret(h).value);
    }
  }

  lemma {:induction false} StepsApply(lim: Limits, st: State, hs: seq<Header>)
    ensures AppliesAs(lim, st, hs)
    decreases |hs|
  {
    if hs != [] {
      var rest, h := hs[..|hs| - 1], hs[|hs| - 1];
      StepsApply(lim, st, rest);
      AppliesMore(lim, st, rest, h);
      assert rest + [h] == hs;
    }
  }

  ghost predicate Accepted(layers: seq<seq<Header>>) {
    forall k :: 0 <= k < |layers| ==> Readable(layers[k])
  }

  ghost function LayerActions(layers: seq<seq<Header>>): (r: seq<Layer>)
    requires Accepted(layers)
    ensures |r| == |layers| && forall k | 0 <= k < |r| :: LayerOk(r[k])
  {
    seq(|layers|, k requires 0 <= k < |layers| => Actions(layers[k]))
  }

  lemma AcceptedMore(lower: seq<seq<Header>>, top: seq<Header>)
    requires Accepted(lower) && Readable(top)
    ensures Accepted(lower + [top]) && LayerActions(lower + [top]) == LayerActions(lower) + [Actions(top)]
  {
  }

  ghost predicate AllApplyAs(lim: Limits, layers: seq<seq<Header>>) {
    AllSteps(lim, layers).Some? ==>
      Accepted(layers) && ApplyLayers(LayerActions(layers)) == Some(AllSteps(lim, layers).value.tree)
  }

  lemma AllApplyMore(lim: Limits, layers: seq<seq<Header>>, k: nat)
    requires k < |layers| && AllApplyAs(lim, layers[..k])
    ensures AllApplyAs(lim, layers[..k + 1])
  {
    var lower, top := layers[..k], layers[k];
    AllStepsMore(lim, layers, k);
    assert layers[..k + 1] == lower + [top];
    if AllSteps(lim, layers[..k + 1]).Some? {
      StepsApply(lim, AllSteps(lim, lower).value, top);
      AcceptedMore(lower, top);
      ApplyLayersMore(LayerActions(lower), Actions(top));
    }
  }

  lemma {:induction false} AllStepsApply(lim: Limits, layers: seq<seq<Header>>, k: nat)
    requires k <= |layers|
    ensures AllApplyAs(lim, layers[..k])
    decreases k
  {
    if k > 0 {
      AllStepsApply(lim, layers, k - 1);
      AllApplyMore(lim, layers, k - 1);
    }
  }

  // An accepted extraction is the declarative union of its layers, for every stack of layers
  // whose deletion markers come first.
  lemma ExtractedIsUnion(lim: Limits, layers: seq<seq<Header>>)
    requires AllSteps(lim, layers).Some?
    ensures Accepted(layers)
    ensures (forall k :: 0 <= k < |layers| ==> DeletesFirst(Actions(layers[k]))) ==>
              forall p :: p != [] ==>
                ViewOf(AllSteps(lim, layers).value.tree, p) == Union(LayerActions(layers), p)
  {
    AllStepsApply(lim, layers, |layers|);
    assert layers[..|layers|] == layers;
    var acts := LayerActions(layers);
    if forall k :: 0 <= k < |layers| ==> DeletesFirst(Actions(layers[k])) {
      forall k | 0 <= k < |acts| ensures LayerOk(acts[k]) && Orderly(acts[..k], acts[k]) {
        assert DeletesFirst(Actions(layers[k]));
        DeletesFirstIsOrderly(acts[..k], acts[k]);
      }
      ExtractionIsUnion(acts);
    }
  }

  /******* What extraction accepts *******/

  // A relative name without separators of other platforms that never steps upwards.
  predicate LegalName(name: string) {
    && name != "" && name[0] != '/' && '\\' !in name && '\0' !in name && !HasDriveLetter(name)
    && forall part :: part in Split(name, '/') ==> part != ".."
  }

  // A relative link target that stays inside the rootfs at every point, seen from a directory at the given depth.
  ghost predicate LegalTarget(depth: nat, target: string) {
    && target != "" && target[0] != '/' && '\\' !in target && !HasDriveLetter(target)
    && !ClimbsAbove(depth, Split(target, '/'))
  }

  // What may stand in a header, wherever it is.
  ghost predicate Legal(h: Header) {
    && LegalName(h.name)
    && var p := Kept(Split(h.name, '/'));
       if p == [] then h.kind.Directory?
       else if WhiteoutPrefix <= p[|p| - 1] then p[|p| - 1] !in {".wh.", ".wh..", ".wh..."}
       else if h.kind.Symlink? then LegalTarget(|p| - 1, h.linkname)
       else if h.kind.Hardlink? then LegalName(h.linkname)
       else true
  }

  lemma CleanIff(name: string)
    ensures CleanEntryPath(name).Some? <==> LegalName(name)
  {
    if name != "" {
      assert HasPrefix(name, "/") <==> name[0] == '/';
    }
  }

  // A header is readable exactly when it is legal.
  lemma LegalIff(h: Header)
    ensures Interpret(h).Some? <==> Legal(h)
  {
    CleanIff(h.name);
    if LegalName(h.name) {
      var p := Kept(Split(h.name, '/'));
      assert CleanEntryPath(h.name) == Some(p);
      if p != [] && IsMarker(p) {
        MarkerIff(p[|p| - 1]);
      } else if p != [] {
        NodeLegalIff(h, p);
      }
    }
  }

  lemma NodeLegalIff(h: Header, p: Path)
    requires CleanEntryPath(h.name) == Some(p) && p != [] && !IsMarker(p)
    ensures Interpret(h).Some? <==>
              (h.kind.Symlink? ==> LegalTarget(|p| - 1, h.linkname)) && (h.kind.Hardlink? ==> LegalName(h.linkname))
  {
    CleanIff(h.linkname);
    TargetIff(p, h.linkname);
  }

  lemma TargetIff(p: Path, target: string)
    requires p != []
    ensures LinkTargetOk(p, target) <==> LegalTarget(|p| - 1, target)
  {
    EscapesIff(|p| - 1, Split(target, '/'));
    assert target != "" ==> (HasPrefix(target, "/") <==> target[0] == '/');
  }

  lemma MarkerIff(base: string)
    requires WhiteoutPrefix <= base
    ensures base in {".wh.", ".wh..", ".wh..."} <==> base[|WhiteoutPrefix|..] in {"", ".", ".."}
    ensures base == OpaqueMarker ==> base !in {".wh.", ".wh..", ".wh..."}
  {
    var rest := base[|WhiteoutPrefix|..];
    assert base == WhiteoutPrefix + rest;
    assert |OpaqueMarker| > 7;
    assert WhiteoutPrefix + "" == ".wh." && WhiteoutPrefix + "." == ".wh.." && WhiteoutPrefix + ".." == ".wh...";
  }

  // An entry that makes a node.
  predicate MakesNode(h: Header) {
    var p := Kept(Split(h.name, '/'));
    p != [] && !(WhiteoutPrefix <= p[|p| - 1])
  }

  function Nodes(hs: seq<Header>): nat {
    if hs == [] then 0
    else
      var h := hs[|hs| - 1];
      Nodes(hs[..|hs| - 1]) + if MakesNode(h) && !h.kind.Special? then 1 else 0
  }

  function ContentSize(hs: seq<Header>): nat {
    if hs == [] then 0
    else
      var h := hs[|hs| - 1];
      ContentSize(hs[..|hs| - 1]) + if MakesNode(h) && h.kind.Regular? then |h.content| else 0
  }

  // The limits allow one more entry after that many nodes and bytes.
  predicate Allowed(lim: Limits, files: nat, bytes: nat, h: Header) {
    MakesNode(h) ==>
      && |Kept(Split(h.name, '/'))| <= lim.maxDepth && files < lim.maxFiles
      && (h.kind.Regular? ==> bytes + |h.content| <= lim.maxBytes && |h.content| <= MaxCopy)
  }

  // Every header in its turn is legal and within the limits.
  ghost predicate Passes(lim: Limits, files: nat, bytes: nat, hs: seq<Header>) {
    hs == [] || (
      var rest, h := hs[..|hs| - 1], hs[|hs| - 1];
      Passes(lim, files, bytes, rest) && Legal(h) && Allowed(lim, files + Nodes(rest), bytes + ContentSize(rest), h))
  }

  // A header is applied exactly when it is legal, the limits allow it and its action can be applied.
  lemma StepIff(lim: Limits, st: State, h: Header)
    ensures Step(lim, st, h).Some? <==>
              Legal(h) && Allowed(lim, st.files, st.bytes, h) && Interpret(h).Some? && Apply(st.tree, Interpret(h).value).Some?
    ensures Step(lim, st, h).Some? ==>
              && Step(lim, st, h).value.files == st.files + Nodes([h])
              && Step(lim, st, h).value.bytes == st.bytes + ContentSize([h])
  {
    LegalIff(h);
    assert [h][..0] == [];
    if Interpret(h).Some? {
      EffectIff(lim, st, h);
    }
  }

  lemma EffectIff(lim: Limits, st: State, h: Header)
    requires Interpret(h).Some?
    ensures Step(lim, st, h).Some? <==> Allowed(lim, st.files, st.bytes, h) && Apply(st.tree, Interpret(h).value).Some?
    ensures Step(lim, st, h).Some? ==>
              && Step(lim, st, h).value.files == st.files + (if MakesNode(h) && !h.kind.Special? then 1 else 0)
              && Step(lim, st, h).value.bytes == st.bytes + (if MakesNode(h) && h.kind.Regular? then |h.content| else 0)
  {
    var p := Kept(Split(h.name, '/'));
    assert CleanEntryPath(h.name) == Some(p);
    if MakesNode(h) {
      NodeIff(lim, st, h, p);
    } else if p != [] {
      MarkerStep(lim, st, h, p);
    }
  }

  lemma NodeIff(lim: Limits, st: State, h: Header, p: Path)
    requires Interpret(h).Some? && CleanEntryPath(h.name) == Some(p) && p != [] && !IsMarker(p) && p == Kept(Split(h.name, '/'))
    ensures Step(lim, st, h).Some? <==> Allowed(lim, st.files, st.bytes, h) && Apply(st.tree, Interpret(h).value).Some?
    ensures Step(lim, st, h).Some? ==>
              && Step(lim, st, h).value.files == st.files + (if !h.kind.Special? then 1 else 0)
              && Step(lim, st, h).value.bytes == st.bytes + (if h.kind.Regular? then |h.content| else 0)
  {
    NodeStep(lim, st, h, p);
    assert MakesNode(h);
    assert Allowed(lim, st.files, st.bytes, h) <==> Fits(lim, st, |p|) && (h.kind.Regular? ==> HasBudget(lim, st.bytes, |h.content|));
  }

  // The headers pass and their actions can be applied.
  ghost predicate StepsAre(lim: Limits, st: State, hs: seq<Header>) {
    var after := Steps(lim, st, hs);
    && (after.Some? <==> Passes(lim, st.files, st.bytes, hs) && Applicable(st.tree, hs))
    && (after.Some? ==> after.value.files == st.files + Nodes(hs) && after.value.bytes == st.bytes + ContentSize(hs))
  }

  ghost predicate Applicable(t: Tree, hs: seq<Header>) {
    Readable(hs) && ApplyLayer(t, Actions(hs)).Some?
  }

  lemma PassesMore(lim: Limits, files: nat, bytes: nat, hs: seq<Header>, h: Header)
    ensures Passes(lim, files, bytes, hs + [h]) <==>
              Passes(lim, files, bytes, hs) && Legal(h) && Allowed(lim, files + Nodes(hs), bytes + ContentSize(hs), h)
    ensures Nodes(hs + [h]) == Nodes(hs) + Nodes([h]) && ContentSize(hs + [h]) == ContentSize(hs) + ContentSize([h])
  {
    assert (hs + [h])[..|hs|] == hs;
    CountMore(hs, h);
  }

  lemma CountMore(hs: seq<Header>, h: Header)
    ensures Nodes(hs + [h]) == Nodes(hs) + Nodes([h]) && ContentSize(hs + [h]) == ContentSize(hs) + ContentSize([h])
  {
    assert (hs + [h])[..|hs|] == hs && [h][..0] == [];
    assert Nodes([]) == ContentSize([]) == 0;
  }

  lemma StepsAreMore(lim: Limits, st: State, hs: seq<Header>, h: Header)
    requires StepsAre(lim, st, hs)
    ensures StepsAre(lim, st, hs + [h])
  {
    StepsSnoc(lim, st, hs, h);
    PassesMore(lim, st.files, st.bytes, hs, h);
    ApplicableMore(st.tree, hs, h);
    if Steps(lim, st, hs).Some? {
      StepsApply(lim, st, hs);
      StepIff(lim, Steps(lim, st, hs).value, h);
    }
  }

  lemma ApplicableMore(t: Tree, hs: seq<Header>, h: Header)
    ensures Applicable(t, hs + [h]) <==>
              Applicable(t, hs) && Interpret(h).Some? && Apply(ApplyLayer(t, Actions(hs)).value, Interpret(h).value).Some?
  {
    var more := hs + [h];
    assert more[|hs|] == h;
    if Readable(more) {
      forall i | 0 <= i < |hs| ensures Interpret(hs[i]).Some? {
        assert Interpret(more[i]).Some?;
      }
    }
    if Readable(hs) && Interpret(h).Some? {
      ActionsMore(hs, h);
      ApplyLayerMore(t, Actions(hs), Interpret(h).value);
    }
  }

  lemma {:induction false} StepsIff(lim: Limits, st: State, hs: seq<Header>)
    ensures StepsAre(lim, st, hs)
    decreases |hs|
  {
    if hs == [] {
      NoSteps(lim, st);
    } else {
      var rest, h := hs[..|hs| - 1], hs[|hs| - 1];
      assert hs == rest + [h];
      StepsIff(lim, st, rest);
      StepsAreMore(lim, st, rest, h);
    }
  }

  lemma NoSteps(lim: Limits, st: State)
    ensures StepsAre(lim, st, [])
  {
    assert Readable([]) && Actions([]) == [];
    assert ApplyLayer(st.tree, []) == Some(st.tree);
  }

  function NodesIn(layers: seq<seq<Header>>): nat {
    if layers == [] then 0 else NodesIn(layers[..|layers| - 1]) + Nodes(layers[|layers| - 1])
  }

  function SizeIn(layers: seq<seq<Header>>): nat {
    if layers == [] then 0 else SizeIn(layers[..|layers| - 1]) + ContentSize(layers[|layers| - 1])
  }

  // Every header of every layer in its turn is legal and within the limits.
  ghost predicate StackPasses(lim: Limits, layers: seq<seq<Header>>) {
    layers == [] || (
      var lower, top := layers[..|layers| - 1], layers[|layers| - 1];
      StackPasses(lim, lower) && Passes(lim, NodesIn(lower), SizeIn(lower), top))
  }

  ghost predicate StackApplicable(layers: seq<seq<Header>>) {
    Accepted(layers) && ApplyLayers(LayerActions(layers)).Some?
  }

  lemma StackPassesMore(lim: Limits, lower: seq<seq<Header>>, top: seq<Header>)
    ensures StackPasses(lim, lower + [top]) <==> StackPasses(lim, lower) && Passes(lim, NodesIn(lower), SizeIn(lower), top)
    ensures NodesIn(lower + [top]) == NodesIn(lower) + Nodes(top) && SizeIn(lower + [top]) == SizeIn(lower) + ContentSize(top)
  {
    assert (lower + [top])[..|lower|] == lower;
  }

  lemma StackApplicableMore(lower: seq<seq<Header>>, top: seq<Header>)
    ensures StackApplicable(lower + [top]) <==>
              StackApplicable(lower) && Applicable(ApplyLayers(LayerActions(lower)).value, top)
  {
    var all := lower + [top];
    assert all[|lower|] == top;
    if Accepted(all) {
      forall k | 0 <= k < |lower| ensures Readable(lower[k]) {
        assert Readable(all[k]);
      }
    }
    if Accepted(lower) && Readable(top) {
      AcceptedMore(lower, top);
      ApplyLayersMore(LayerActions(lower), Actions(top));
    }
  }

  ghost predicate StackIs(lim: Limits, layers: seq<seq<Header>>) {
    var after := AllSteps(lim, layers);
    && (after.Some? <==> StackPasses(lim, layers) && StackApplicable(layers))
    && (after.Some? ==> after.value.files == NodesIn(layers) && after.value.bytes == SizeIn(layers))
  }

  lemma StackIsMore(lim: Limits, layers: seq<seq<Header>>, k: nat)
    requires k < |layers| && StackIs(lim, layers[..k])
    ensures StackIs(lim, layers[..k + 1])
  {
    var lower, top := layers[..k], layers[k];
    assert layers[..k + 1] == lower + [top];
    AllStepsMore(lim, layers, k);
    StackPassesMore(lim, lower, top);
    StackApplicableMore(lower, top);
    if AllSteps(lim, lower).Some? {
      AllStepsApply(lim, layers, k);
      StepsIff(lim, AllSteps(lim, lower).value, top);
    }
  }

  lemma {:induction false} StackIff(lim: Limits, layers: seq<seq<Header>>, k: nat)
    requires k <= |layers|
    ensures StackIs(lim, layers[..k])
    decreases k
  {
    if k > 0 {
      StackIff(lim, layers, k - 1);
      StackIsMore(lim, layers, k - 1);
    }
  }

  ghost predicate MarkersFirst(layers: seq<seq<Header>>)
    requires Accepted(layers)
  {
    forall k :: 0 <= k < |layers| ==> DeletesFirst(Actions(layers[k]))
  }

  // Extraction accepts exactly the stacks whose every header is legal and within the limits and finds
  // room in the union of what came before it - given that deletion markers come first.
  lemma ExtractsIff(lim: Limits, layers: seq<seq<Header>>)
    ensures AllSteps(lim, layers).Some? ==> StackPasses(lim, layers) && Accepted(layers)
    ensures Accepted(layers) && MarkersFirst(layers) ==>
              (AllSteps(lim, layers).Some? <==> StackPasses(lim, layers) && StackAcceptable(LayerActions(layers)))
  {
    StackIff(lim, layers, |layers|);
    assert layers[..|layers|] == layers;
    if Accepted(layers) && MarkersFirst(layers) {
      var acts := LayerActions(layers);
      forall k | 0 <= k < |acts| ensures LayerOk(acts[k]) && Orderly(acts[..k], acts[k]) {
        assert DeletesFirst(Actions(layers[k]));
        DeletesFirstIsOrderly(acts[..k], acts[k]);
      }
      StackAppliesIff(acts);
    }
  }

  /******* The extractor *******/

  lemma RemovedAbsent(t: Tree, p: Path)
    requires WellFormed(t) && p != [] && !IsDir(t, p)
    ensures Removed(t, p) == Tree(t.nodes - {p}, t.modes)
  {
    forall q | q in t.nodes && p <= q ensures q == p {
      if q != p { NothingUnderLeaf(t, p, q); }
    }
    forall q | q in t.modes ensures !(p <= q) {
      assert q != [] ==> Tidy(t, q);
      if p < q { NothingUnderLeaf(t, p, q); }
    }
    assert Removed(t, p).nodes == t.nodes - {p};
    assert Removed(t, p).modes == t.modes;
  }

  // q lies at or below one of the children of dir that were removed.
  ghost predicate Gone(dir: Path, removed: set<Path>, q: Path) {
    dir < q && q[..|dir| + 1] in removed
  }

  ghost function Survivors<V>(m: map<Path, V>, dir: Path, removed: set<Path>): map<Path, V> {
    map q | q in m && !Gone(dir, removed, q) :: m[q]
  }

  lemma SurvivorsShrink<V>(m: map<Path, V>, dir: Path, removed: set<Path>, victim: Path)
    requires dir < victim && |victim| == |dir| + 1
    ensures Survivors(m, dir, removed + {victim})
            == map q | q in Survivors(m, dir, removed) && !(victim <= q) :: m[q]
  {
    forall q ensures Gone(dir, removed + {victim}, q) <==> Gone(dir, removed, q) || victim <= q {
      assert victim <= q <==> dir < q && q[..|dir| + 1] == victim;
    }
  }

  lemma AllChildrenRemoved(t: Tree, dir: Path, removed: set<Path>)
    requires WellFormed(t)
    requires removed == set q | q in t.nodes && |q| == |dir| + 1 && dir <= q :: q
    ensures Tree(Survivors(t.nodes, dir, removed), Survivors(t.modes, dir, removed)) == Emptied(t, dir)
  {
    forall q | q in t.nodes || q in t.modes ensures Gone(dir, removed, q) <==> dir < q {
      assert q in t.modes && q != [] ==> Tidy(t, q);
      if dir < q {
        var child := q[..|dir| + 1];
        if child != q { ParentsAreDirs(t, child, q); }
      }
    }
    assert Survivors(t.nodes, dir, removed) == Emptied(t, dir).nodes;
    assert Survivors(t.modes, dir, removed) == Emptied(t, dir).modes;
  }

  class Extraction {
    var root: map<Path, Node>
    var dirModes: map<Path, nat>
    var files: nat
    var bytes: nat
    var ignored: nat
    const limits: Limits

    constructor (limits: Limits)
      ensures this.limits == limits && Contents() == Start
    {
      this.limits := limits;
      root, dirModes, files, bytes, ignored := map[], map[], 0, 0, 0;
    }

    ghost function Contents(): State
      reads this
    {
      State(Tree(root, dirModes), files, bytes, ignored)
    }

    // Forget the modes recorded at and under a deleted path.
    method DropModesUnder(victim: Path)
      modifies this`dirModes
      ensures dirModes == map q | q in old(dirModes) && !(victim <= q) :: old(dirModes)[q]
    {
      var todo := dirModes.Keys;
      while todo != {}
        invariant todo <= old(dirModes).Keys
        invariant dirModes == map q | q in old(dirModes) && (q in todo || !(victim <= q)) :: old(dirModes)[q]
      {
        var dir :| dir in todo;
        if victim <= dir {
          dirModes := dirModes - {dir};
        }
        todo := todo - {dir};
      }
    }

    // Clear whatever lower layers left at p, except a directory under a directory entry.
    method ReplaceExisting(p: Path, isDir: bool) returns (ok: bool)
      requires p != [] && WellFormed(Contents().tree)
      modifies this`root, this`dirModes
      ensures ok <==> Reachable(old(Contents()).tree, p)
      ensures ok ==> Contents().tree ==
                     if isDir && IsDir(old(Contents()).tree, p) then old(Contents()).tree
                     else Removed(old(Contents()).tree, p)
    {
      ghost var t := Contents().tree;
      ok := Reachable(Tree(root, dirModes), p);
      if !ok || (p in root && root[p].Dir? && isDir) {
        return;
      }
      if p in root && root[p].Dir? {
        root := map q | q in root && !(p <= q) :: root[q];
        DropModesUnder(p);
      } else {
        RemovedAbsent(t, p);
        root := root - {p};
      }
    }

    // Create dir and its parents; segments no layer describes get the default mode.
    method EnsureDir(dir: Path) returns (ok: bool)
      modifies this`root, this`dirModes
      ensures ok <==> CanMakeDirs(old(Contents()).tree, dir)
      ensures ok ==> Contents().tree == WithDirs(old(Contents()).tree, dir)
    {
      ok := CanMakeDirs(Tree(root, dirModes), dir);
      if !ok {
        return;
      }
      root := root + (map q | q in Prefixes(dir) :: Dir);
      RecordDefaults(dir);
    }

    method RecordDefaults(dir: Path)
      modifies this`dirModes
      ensures dirModes == (map q | q in Prefixes(dir) :: DefaultDirMode) + old(dirModes)
    {
      ghost var m0 := dirModes;
      var k := 0;
      while k < |dir|
        invariant 0 <= k <= |dir|
        invariant forall q :: q in dirModes <==> q in m0 || (q in Prefixes(dir) && |q| <= k)
        invariant forall q :: q in dirModes ==> dirModes[q] == if q in m0 then m0[q] else DefaultDirMode
      {
        k := k + 1;
        var prefix := dir[..k];
        assert forall q :: q in Prefixes(dir) && |q| == k ==> q == prefix;
        if prefix !in dirModes {
          dirModes := dirModes[prefix := DefaultDirMode];
        }
      }
    }

    // Remove every child of dir.
    method EmptyDirectory(dir: Path)
      requires WellFormed(Contents().tree)
      modifies this`root, this`dirModes
      ensures Contents().tree == Emptied(old(Contents()).tree, dir)
    {
      ghost var t := Contents().tree;
      var names := set q | q in root && |q| == |dir| + 1 && dir <= q :: q;
      ghost var all, removed: set<Path> := names, {};
      while names != {}
        invariant all == names + removed
        invariant root == Survivors(t.nodes, dir, removed)
        invariant dirModes == Survivors(t.modes, dir, removed)
      {
        var victim :| victim in names;
        SurvivorsShrink(t.nodes, dir, removed, victim);
        SurvivorsShrink(t.modes, dir, removed, victim);
        root := map q | q in root && !(victim <= q) :: root[q];
        DropModesUnder(victim);
        names, removed := names - {victim}, removed + {victim};
      }
      AllChildrenRemoved(t, dir, removed);
    }

    method ApplyWhiteout(p: Path) returns (ok: bool)
      requires IsMarker(p) && WellFormed(Contents().tree)
      requires forall i | 0 <= i < |p| :: p[i] != "" && p[i] != "."
      modifies this`root, this`dirModes
      ensures var base := p[|p| - 1];
              var victim := base[|WhiteoutPrefix|..];
              var after := if base == OpaqueMarker then Apply(old(Contents()).tree, Opaque(Parent(p)))
                           else if victim == "" || victim == "." || victim == ".." then None
                           else Apply(old(Contents()).tree, Whiteout(Parent(p) + [victim]));
              && (ok <==> after.Some?)
              && (ok ==> Contents().tree == after.value)
    {
      ghost var t := Contents().tree;
      var dir, base := p[..|p| - 1], p[|p| - 1];
      if base == OpaqueMarker {
        ok := EnsureDir(dir);
        if ok {
          WithDirsWellFormed(t, dir);
          EmptyDirectory(dir);
        }
        return;
      }
      var victim := base[|WhiteoutPrefix|..];
      if victim == "" || victim == "." || victim == ".." {
        return false;
      }
      var v := dir + [victim];
      ok := Reachable(Tree(root, dirModes), v);
      if ok {
        root := map q | q in root && !(v <= q) :: root[q];
        DropModesUnder(v);
      }
    }

    method WriteFile(p: Path, perm: nat, content: Bytes) returns (ok: bool)
      requires p != [] && WellFormed(Contents().tree)
      modifies this`root, this`dirModes, this`bytes
      ensures ok <==> ApplyLeaf(old(Contents()).tree, p, File(content, perm)).Some?
                      && HasBudget(limits, old(bytes), |content|)
      ensures ok ==> Contents().tree == ApplyLeaf(old(Contents()).tree, p, File(content, perm)).value
      ensures ok ==> bytes == old(bytes) + |content|
    {
      ok := ReplaceExisting(p, false);
      if !ok { return; }
      ok := EnsureDir(p[..|p| - 1]);
      if !ok { return; }
      var budget := Min(limits.maxBytes - bytes, MaxCopy);
      if |content| > budget {
        return false;
      }
      bytes := bytes + |content|;
      root := root[p := File(content, perm)];
    }

    method WriteSymlink(p: Path, target: string) returns (ok: bool)
      requires p != [] && WellFormed(Contents().tree)
      modifies this`root, this`dirModes
      ensures ok <==> LinkTargetOk(p, target) && ApplyLeaf(old(Contents()).tree, p, Link(target)).Some?
      ensures ok ==> Contents().tree == ApplyLeaf(old(Contents()).tree, p, Link(target)).value
    {
      if !LinkTargetOk(p, target) {
        return false;
      }
      ok := ReplaceExisting(p, false);
      if !ok { return; }
      ok := EnsureDir(p[..|p| - 1]);
      if !ok { return; }
      root := root[p := Link(target)];
    }

    // Link to an already extracted regular file; clearing p must not have removed it.
    method WriteHardlink(p: Path, linkname: string) returns (ok: bool)
      requires p != [] && WellFormed(Contents().tree)
      modifies this`root, this`dirModes
      ensures ok <==> CleanEntryPath(linkname).Some?
                      && Apply(old(Contents()).tree, PutHardlink(p, CleanEntryPath(linkname).value)).Some?
      ensures ok ==> Contents().tree
                     == Apply(old(Contents()).tree, PutHardlink(p, CleanEntryPath(linkname).value)).value
    {
      var clean := CleanEntryPath(linkname);
      if clean.None? {
        return false;
      }
      var target := clean.value;
      if !Reachable(Tree(root, dirModes), target) || target !in root || !root[target].File? {
        return false;
      }
      var linked := root[target];
      ok := ReplaceExisting(p, false);
      if !ok { return; }
      ok := EnsureDir(p[..|p| - 1]);
      if !ok { return; }
      if target !in root {
        return false;
      }
      root := root[p := linked];
    }

    method WriteDirectory(p: Path, perm: nat) returns (ok: bool)
      requires p != [] && WellFormed(Contents().tree)
      modifies this`root, this`dirModes
      ensures ok <==> Apply(old(Contents()).tree, PutDir(p, perm)).Some?
      ensures ok ==> Contents().tree == Apply(old(Contents()).tree, PutDir(p, perm)).value
    {
      ok := ReplaceExisting(p, true);
      if !ok { return; }
      ok := EnsureDir(p);
      if !ok { return; }
      dirModes := dirModes[p := perm];
    }

    // An entry that is neither a deletion marker nor the rootfs itself.
    method ApplyNode(p: Path, h: Header) returns (ok: bool)
      requires CleanEntryPath(h.name) == Some(p) && p != [] && !IsMarker(p) && WellFormed(Contents().tree)
      modifies this
      ensures ok <==> Step(limits, old(Contents()), h).Some?
      ensures ok ==> Contents() == Step(limits, old(Contents()), h).value
    {
      NodeStep(limits, Contents(), h, p);
      if |p| > limits.maxDepth {
        return false;
      }
      files := files + 1;
      if files > limits.maxFiles {
        return false;
      }
      var perm := Perm(h.mode);
      match h.kind {
        case Directory => ok := WriteDirectory(p, perm);
        case Regular => ok := WriteFile(p, perm, h.content);
        case Symlink => ok := WriteSymlink(p, h.linkname);
        case Hardlink => ok := WriteHardlink(p, h.linkname);
        case Special =>
          files := files - 1;
          ignored := ignored + 1;
          ok := true;
      }
    }

    // A deletion marker.
    method ApplyMarker(p: Path, h: Header) returns (ok: bool)
      requires CleanEntryPath(h.name) == Some(p) && IsMarker(p) && WellFormed(Contents().tree)
      modifies this
      ensures ok <==> Step(limits, old(Contents()), h).Some?
      ensures ok ==> Contents() == Step(limits, old(Contents()), h).value
    {
      MarkerStep(limits, Contents(), h, p);
      ok := ApplyWhiteout(p);
    }

    // The rootfs itself.
    method ApplyRoot(h: Header) returns (ok: bool)
      requires CleanEntryPath(h.name) == Some([])
      modifies this
      ensures ok <==> Step(limits, old(Contents()), h).Some?
      ensures ok ==> Contents() == Step(limits, old(Contents()), h).value
    {
      ok := h.kind.Directory?;
      if ok {
        dirModes := dirModes[[] := Perm(h.mode)];
      }
    }

    // One tar entry.
    method ApplyEntry(h: Header) returns (ok: bool)
      requires WellFormed(Contents().tree)
      modifies this
      ensures ok <==> Step(limits, old(Contents()), h).Some?
      ensures ok ==> Contents() == Step(limits, old(Contents()), h).value && WellFormed(Contents().tree)
    {
      ghost var st := Contents();
      var clean := CleanEntryPath(h.name);
      if clean.None? {
        return false;
      }
      var p := clean.value;
      if IsMarker(p) {
        ok := ApplyMarker(p, h);
      } else if p == [] {
        ok := ApplyRoot(h);
      } else {
        ok := ApplyNode(p, h);
      }
      if ok {
        StepWellFormed(limits, st, h);
      }
    }

    // The entries of one layer, in stream order.
    method ApplyLayerEntries(hs: seq<Header>) returns (ok: bool)
      requires WellFormed(Contents().tree)
      modifies this
      ensures ok <==> Steps(limits, old(Contents()), hs).Some?
      ensures ok ==> Contents() == Steps(limits, old(Contents()), hs).value && WellFormed(Contents().tree)
    {
      ghost var st := Contents();
      var i := 0;
      while i < |hs|
        invariant 0 <= i <= |hs|
        invariant Steps(limits, st, hs[..i]) == Some(Contents()) && WellFormed(Contents().tree)
      {
        StepsSnoc(limits, st, hs[..i], hs[i]);
        assert hs[..i + 1] == hs[..i] + [hs[i]];
        ok := ApplyEntry(hs[i]);
        if !ok {
          StepsStop(limits, st, hs, i + 1);
          return;
        }
        i := i + 1;
      }
      assert hs[..i] == hs;
      ok := true;
    }

    // Every layer in order, then the recorded directory modes. The last pass cannot fail: a mode
    // is recorded for nothing but the rootfs and directories that still exist.
    method ExtractLayers(layers: seq<seq<Header>>) returns (ok: bool)
      requires Contents() == Start
      modifies this
      ensures ok <==> AllSteps(limits, layers).Some?
      ensures ok ==> Contents() == AllSteps(limits, layers).value
      ensures ok ==> Accepted(layers) && StackPasses(limits, layers)
      ensures Accepted(layers) && MarkersFirst(layers) ==> (ok <==> StackPasses(limits, layers) && StackAcceptable(LayerActions(layers)))
      ensures ok && MarkersFirst(layers) ==> forall p :: p != [] ==> ViewOf(Contents().tree, p) == Union(LayerActions(layers), p)
    {
      ok := EachLayer(layers);
      ExtractsIff(limits, layers);
      if ok {
        ExtractedIsUnion(limits, layers);
      }
    }

    method EachLayer(layers: seq<seq<Header>>) returns (ok: bool)
      requires Contents() == Start
      modifies this
      ensures ok <==> AllSteps(limits, layers).Some?
      ensures ok ==> Contents() == AllSteps(limits, layers).value
    {
      var k := 0;
      while k < |layers|
        invariant 0 <= k <= |layers|
        invariant AllSteps(limits, layers[..k]) == Some(Contents()) && WellFormed(Contents().tree)
      {
        AllStepsMore(limits, layers, k);
        ok := ApplyLayerEntries(layers[k]);
        if !ok {
          AllStepsStop(limits, layers, k + 1);
          return;
        }
        k := k + 1;
      }
      assert layers[..k] == layers;
      ok := RestoreModes();
    }

    method RestoreModes() returns (ok: bool)
      requires WellFormed(Contents().tree)
      ensures ok
    {
      var dirs := dirModes.Keys;
      while dirs != {}
        invariant dirs <= dirModes.Keys
      {
        var dir :| dir in dirs;
        assert dir == [] || Tidy(Contents().tree, dir);
        if dir != [] && !IsDir(Tree(root, dirModes), dir) {
          return false;
        }
        dirs := dirs - {dir};
      }
      ok := true;
    }
  }
}
