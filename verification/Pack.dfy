/**
 Packing a local file tree into a FileSet layer, and the proof that extraction undoes it.
 */
module Pack {
  import opened Wrappers
  import opened RootFs
  import opened LayerUnion
  import opened Text
  import opened Extract

  // A local file tree as the walk sees it.
  datatype Source = Source(perm: nat, setid: bool, body: Body)
  datatype Body =
    | FileBody(content: Bytes)
    | DirBody(kids: seq<Kid>)
    | LinkBody(target: string)
    | OtherBody
  datatype Kid = Kid(name: string, source: Source)

  datatype Visit = Visit(path: Path, source: Source)

  // What a file system guarantees of its directories: usable, pairwise distinct names.
  predicate ValidName(name: string) {
    name != "" && name != "." && name != ".." && '/' !in name
  }

  predicate ValidKids(kids: seq<Kid>)
    decreases kids
  {
    && (forall i | 0 <= i < |kids| :: ValidName(kids[i].name))
    && (forall i, j | 0 <= i < j < |kids| :: kids[i].name != kids[j].name)
    && (forall i | 0 <= i < |kids| :: kids[i].source.body.DirBody? ==> ValidKids(kids[i].source.body.kids))
  }

  // The order of filepath.WalkDir: a directory right before everything it holds.
  function Walk(dir: Path, kids: seq<Kid>): seq<Visit>
    decreases kids
  {
    if kids == [] then [] else
    WalkKid(dir, kids[0]) + Walk(dir, kids[1..])
  }

  function WalkKid(dir: Path, kid: Kid): seq<Visit>
    decreases kid, 0
  {
    var p := dir + [kid.name];
    [Visit(p, kid.source)] + if kid.source.body.DirBody? then Walk(p, kid.source.body.kids) else []
  }

  /******* What packing accepts *******/

  predicate EntryNameOk(name: string, lim: Limits) {
    var segments := Split(name, '/');
    && '\0' !in name && '\\' !in name && !HasDriveLetter(name)
    && !IsMarker(segments)
    && |segments| <= lim.maxDepth
  }

  function Slashed(s: string): string {
    seq(|s|, i requires 0 <= i < |s| => if s[i] == '\\' then '/' else s[i])
  }

  // The rules of checkLinkTarget, on the separator-normalized copy first.
  predicate PackLinkOk(name: string, target: string) {
    var probe := Slashed(target);
    && target != "" && '\0' !in target
    && !HasPrefix(probe, "/") && !HasDriveLetter(probe)
    && !Escapes(|Split(name, '/')| - 1, Split(probe, '/'))
    && '\\' !in target
  }

  function NameOf(p: Path): string
    requires p != []
  {
    Join(p, '/')
  }

  predicate VisitOk(v: Visit, lim: Limits)
    requires v.path != []
  {
    && EntryNameOk(NameOf(v.path), lim)
    && !v.source.setid
    && !v.source.body.OtherBody?
    && (v.source.body.LinkBody? ==> PackLinkOk(NameOf(v.path), v.source.body.target))
  }

  function SizeOf(v: Visit): nat {
    if v.source.body.FileBody? then |v.source.body.content| else 0
  }

  function TotalSize(vs: seq<Visit>): nat {
    if vs == [] then 0 else TotalSize(vs[..|vs| - 1]) + SizeOf(vs[|vs| - 1])
  }

  predicate VisitsOk(vs: seq<Visit>, lim: Limits) {
    forall i | 0 <= i < |vs| :: vs[i].path != [] && VisitOk(vs[i], lim)
  }

  predicate Packable(vs: seq<Visit>, lim: Limits) {
    && VisitsOk(vs, lim)
    && |vs| <= lim.maxFiles
    && TotalSize(vs) <= lim.maxBytes
  }

  function PackHeader(v: Visit): Header
    requires v.path != []
  {
    match v.source.body
    case DirBody(_) => Header(NameOf(v.path) + "/", Directory, Perm(v.source.perm), "", [])
    case FileBody(content) => Header(NameOf(v.path), Regular, Perm(v.source.perm), "", content)
    case LinkBody(target) => Header(NameOf(v.path), Symlink, Perm(v.source.perm), target, [])
    case OtherBody => Header(NameOf(v.path), Special, Perm(v.source.perm), "", [])
  }

  datatype Stats = Stats(files: nat, dirs: nat, symlinks: nat, bytes: nat) {
    function Total(): nat { files + dirs + symlinks }
  }

  lemma {:induction false} TotalSizeGrows(vs: seq<Visit>, n: nat)
    requires n <= |vs|
    ensures TotalSize(vs[..n]) <= TotalSize(vs)
    decreases |vs| - n
  {
    if n == |vs| {
      assert vs[..n] == vs;
    } else {
      assert vs[..n + 1][..n] == vs[..n];
      TotalSizeGrows(vs, n + 1);
    }
  }

  // Walk the tree and write the layer, stopping at the first refusal. `broken` says at which visits
  // the entry cannot be read, or changes while it is.
  method WriteTree(kids: seq<Kid>, lim: Limits, broken: nat -> bool) returns (ok: bool, st: Stats, entries: seq<Header>)
    requires ValidKids(kids)
    ensures ok <==> Packable(Walk([], kids), lim) && AllRead(broken, |Walk([], kids)|)
    ensures ok ==> entries == Headers(Walk([], kids))
    ensures ok ==> st.Total() == |entries| && st.bytes == TotalSize(Walk([], kids))
  {
    WalkShape([], kids);
    ok, st, entries := WriteVisits(Walk([], kids), lim, broken);
  }

  predicate AllRead(broken: nat -> bool, n: nat) {
    forall i: nat | i < n :: !broken(i)
  }

  method WriteVisits(vs: seq<Visit>, lim: Limits, broken: nat -> bool) returns (ok: bool, st: Stats, entries: seq<Header>)
    requires forall i | 0 <= i < |vs| :: vs[i].path != []
    ensures ok <==> Packable(vs, lim) && AllRead(broken, |vs|)
    ensures ok ==> entries == Headers(vs)
    ensures ok ==> st.Total() == |entries| && st.bytes == TotalSize(vs)
  {
    st, entries := Stats(0, 0, 0, 0), [];
    for i := 0 to |vs|
      invariant Written(vs, i, lim, broken, st, entries)
    {
      ok, st, entries := WriteNext(vs, i, lim, broken, st, entries);
      if !ok {
        return;
      }
    }
    assert vs[..|vs|] == vs;
    ok := true;
  }

  // The first n visits were written, and counted.
  ghost predicate Written(vs: seq<Visit>, n: nat, lim: Limits, broken: nat -> bool, st: Stats, entries: seq<Header>)
    requires n <= |vs| && forall i | 0 <= i < |vs| :: vs[i].path != []
  {
    && Packable(vs[..n], lim) && AllRead(broken, n)
    && entries == Headers(vs[..n]) && st.Total() == n && st.bytes == TotalSize(vs[..n])
  }

  method WriteNext(vs: seq<Visit>, i: nat, lim: Limits, broken: nat -> bool, before: Stats, written: seq<Header>)
    returns (ok: bool, st: Stats, entries: seq<Header>)
    requires (forall i | 0 <= i < |vs| :: vs[i].path != []) && i < |vs| && Written(vs, i, lim, broken, before, written)
    ensures ok ==> Written(vs, i + 1, lim, broken, st, entries)
    ensures !ok ==> !Packable(vs, lim) || !AllRead(broken, |vs|)
  {
    entries := written;
    ok, st := WriteVisit(vs[i], before, lim, broken(i));
    PackableSnoc(vs, i, lim);
    HeadersSnoc(vs, i);
    if ok {
      entries := entries + [PackHeader(vs[i])];
      ok := st.Total() <= lim.maxFiles;
    }
  }

  lemma PackableSnoc(vs: seq<Visit>, i: nat, lim: Limits)
    requires i < |vs| && vs[i].path != []
    ensures TotalSize(vs[..i + 1]) == TotalSize(vs[..i]) + SizeOf(vs[i])
    ensures Packable(vs[..i + 1], lim) <==>
              && Packable(vs[..i], lim) && VisitOk(vs[i], lim)
              && i + 1 <= lim.maxFiles && TotalSize(vs[..i + 1]) <= lim.maxBytes
    ensures Packable(vs, lim) ==> Packable(vs[..i + 1], lim)
  {
    var some := vs[..i + 1];
    assert some[..i] == vs[..i] && some[i] == vs[i];
    TotalSizeGrows(vs, i + 1);
    VisitsOkSnoc(vs, i, lim);
  }

  lemma PackableAt(vs: seq<Visit>, i: nat, lim: Limits)
    requires Packable(vs, lim) && i < |vs|
    ensures vs[i].path != [] && VisitOk(vs[i], lim) && i < lim.maxFiles
    ensures TotalSize(vs[..i]) + SizeOf(vs[i]) <= lim.maxBytes
  {
    assert vs[..i + 1][..i] == vs[..i];
    TotalSizeGrows(vs, i + 1);
  }

  lemma VisitsOkSnoc(vs: seq<Visit>, i: nat, lim: Limits)
    requires i < |vs| && vs[i].path != []
    ensures VisitsOk(vs[..i + 1], lim) <==> VisitsOk(vs[..i], lim) && VisitOk(vs[i], lim)
    ensures VisitsOk(vs, lim) ==> VisitsOk(vs[..i + 1], lim)
  {
    var some := vs[..i + 1];
    assert forall j | 0 <= j < i :: some[j] == vs[..i][j];
    assert some[i] == vs[i];
  }

  // One entry of the walk: its refusals and its share of the statistics.
  method WriteVisit(v: Visit, before: Stats, lim: Limits, broken: bool) returns (ok: bool, st: Stats)
    requires v.path != []
    ensures ok <==> !broken && VisitOk(v, lim) && (v.source.body.FileBody? ==> before.bytes + SizeOf(v) <= lim.maxBytes)
    ensures ok ==> st.Total() == before.Total() + 1 && st.bytes == before.bytes + SizeOf(v)
  {
    st := before;
    if broken || !EntryNameOk(NameOf(v.path), lim) || v.source.setid {
      return false, st;
    }
    match v.source.body {
      case DirBody(_) =>
        st := st.(dirs := st.dirs + 1);
      case FileBody(content) =>
        st := st.(files := st.files + 1, bytes := st.bytes + |content|);
        if st.bytes > lim.maxBytes {
          return false, st;
        }
      case LinkBody(target) =>
        st := st.(symlinks := st.symlinks + 1);
        if !PackLinkOk(NameOf(v.path), target) {
          return false, st;
        }
      case OtherBody =>
        return false, st;
    }
    ok := true;
  }

  function Headers(vs: seq<Visit>): seq<Header>
    requires forall i | 0 <= i < |vs| :: vs[i].path != []
  {
    seq(|vs|, i requires 0 <= i < |vs| => PackHeader(vs[i]))
  }

  lemma HeadersSnoc(vs: seq<Visit>, i: nat)
    requires (forall j | 0 <= j < |vs| :: vs[j].path != []) && i < |vs|
    ensures Headers(vs[..i + 1]) == Headers(vs[..i]) + [PackHeader(vs[i])]
  {
  }

  /******* The shape of a walk *******/

  predicate GoodPath(p: Path) {
    p != [] && forall i | 0 <= i < |p| :: ValidName(p[i])
  }

  // Distinct paths, each after the directory that holds it.
  ghost predicate Shaped(dir: Path, vs: seq<Visit>) {
    && (forall i :: 0 <= i < |vs| ==> dir < vs[i].path)
    && (forall i, j :: 0 <= i < j < |vs| ==> vs[i].path != vs[j].path)
    && (forall i {:trigger HeldBefore(dir, vs, i)} :: 0 <= i < |vs| ==> HeldBefore(dir, vs, i))
  }

  ghost predicate HeldBefore(dir: Path, vs: seq<Visit>, i: nat)
    requires i < |vs| && vs[i].path != []
  {
    || Parent(vs[i].path) == dir
    || exists j :: 0 <= j < i && vs[j].path == Parent(vs[i].path) && vs[j].source.body.DirBody?
  }

  ghost predicate InKids(dir: Path, kids: seq<Kid>, p: Path) {
    |p| > |dir| && exists k :: 0 <= k < |kids| && p[|dir|] == kids[k].name
  }

  lemma {:induction false} KidShape(dir: Path, kid: Kid)
    requires ValidName(kid.name)
    requires kid.source.body.DirBody? ==> ValidKids(kid.source.body.kids)
    ensures Shaped(dir, WalkKid(dir, kid))
    ensures forall i :: 0 <= i < |WalkKid(dir, kid)| ==> dir + [kid.name] <= WalkKid(dir, kid)[i].path
    decreases kid, 0
  {
    if kid.source.body.DirBody? {
      var p := dir + [kid.name];
      WalkShape(p, kid.source.body.kids);
      UnderParent(dir, Visit(p, kid.source), Walk(p, kid.source.body.kids));
    }
  }

  // A directory, then what is below it.
  lemma UnderParent(dir: Path, v: Visit, sub: seq<Visit>)
    requires v.path != [] && Parent(v.path) == dir && v.source.body.DirBody? && Shaped(v.path, sub)
    ensures Shaped(dir, [v] + sub)
  {
    var vs := [v] + sub;
    forall i | 0 <= i < |vs| ensures HeldBefore(dir, vs, i) {
      if i > 0 {
        HeldUnderParent(dir, v, sub, i - 1);
      }
    }
    forall i, j | 0 <= i < j < |vs| ensures vs[i].path != vs[j].path {
      assert vs[j] == sub[j - 1];
      if i > 0 { assert vs[i] == sub[i - 1]; }
    }
  }

  lemma HeldUnderParent(dir: Path, v: Visit, sub: seq<Visit>, i: nat)
    requires v.source.body.DirBody? && Shaped(v.path, sub) && i < |sub|
    ensures sub[i].path != [] && HeldBefore(dir, [v] + sub, i + 1)
  {
    var vs := [v] + sub;
    assert vs[i + 1] == sub[i] && HeldBefore(v.path, sub, i);
    if Parent(sub[i].path) == v.path {
      assert vs[0].path == Parent(vs[i + 1].path);
    } else {
      var j :| 0 <= j < i && sub[j].path == Parent(sub[i].path) && sub[j].source.body.DirBody?;
      assert vs[j + 1] == sub[j];
    }
  }

  lemma ShapedConcat(dir: Path, a: seq<Visit>, b: seq<Visit>)
    requires Shaped(dir, a) && Shaped(dir, b)
    requires forall i, j :: 0 <= i < |a| && 0 <= j < |b| ==> a[i].path != b[j].path
    ensures Shaped(dir, a + b)
  {
    var vs, n := a + b, |a|;
    forall i | 0 <= i < |vs| ensures HeldBefore(dir, vs, i) {
      if Parent(vs[i].path) != dir {
        if i < n {
          assert HeldBefore(dir, a, i);
          var j :| 0 <= j < i && a[j].path == Parent(a[i].path) && a[j].source.body.DirBody?;
          assert vs[j] == a[j];
        } else {
          assert HeldBefore(dir, b, i - n);
          var j :| 0 <= j < i - n && b[j].path == Parent(b[i - n].path) && b[j].source.body.DirBody?;
          assert vs[j + n] == b[j];
        }
      }
    }
    forall i, j | 0 <= i < j < |vs| ensures vs[i].path != vs[j].path {
      if n <= i { assert vs[i] == b[i - n] && vs[j] == b[j - n]; }
    }
  }

  lemma {:induction false} WalkShape(dir: Path, kids: seq<Kid>)
    requires ValidKids(kids)
    ensures Shaped(dir, Walk(dir, kids))
    ensures forall i :: 0 <= i < |Walk(dir, kids)| ==> InKids(dir, kids, Walk(dir, kids)[i].path)
    decreases kids
  {
    if kids != [] {
      var first, rest := WalkKid(dir, kids[0]), Walk(dir, kids[1..]);
      KidShape(dir, kids[0]);
      WalkShape(dir, kids[1..]);
      forall i | 0 <= i < |first| ensures InKids(dir, kids, first[i].path) {
        assert first[i].path[|dir|] == kids[0].name;
      }
      forall j | 0 <= j < |rest|
        ensures InKids(dir, kids, rest[j].path) && rest[j].path[|dir|] != kids[0].name
      {
        var k :| 0 <= k < |kids[1..]| && rest[j].path[|dir|] == kids[1..][k].name;
        assert kids[k + 1].name == rest[j].path[|dir|];
      }
      forall i, j | 0 <= i < |first| && 0 <= j < |rest| ensures first[i].path != rest[j].path {
        assert first[i].path[|dir|] == kids[0].name;
      }
      ShapedConcat(dir, first, rest);
    }
  }

  lemma {:induction false} WalkGood(dir: Path, kids: seq<Kid>)
    requires ValidKids(kids) && forall i | 0 <= i < |dir| :: ValidName(dir[i])
    ensures forall v :: v in Walk(dir, kids) ==> GoodPath(v.path)
    decreases kids
  {
    if kids != [] {
      var p := dir + [kids[0].name];
      if kids[0].source.body.DirBody? {
        WalkGood(p, kids[0].source.body.kids);
      }
      WalkGood(dir, kids[1..]);
    }
  }

  /******* Reading a packed header back *******/

  lemma {:induction false} JoinSnocEmpty(p: Path)
    requires p != []
    ensures Join(p + [""], '/') == Join(p, '/') + "/"
  {
    if |p| > 1 {
      JoinSnocEmpty(p[1..]);
      assert (p + [""])[1..] == p[1..] + [""];
    } else {
      assert (p + [""])[1..] == [""];
    }
  }

  lemma {:induction false} KeptAll(p: Path, tail: seq<string>)
    requires forall i | 0 <= i < |p| :: p[i] != "" && p[i] != "."
    requires Kept(tail) == []
    ensures Kept(p + tail) == p
  {
    if p == [] {
      assert p + tail == tail;
    } else {
      assert (p + tail)[1..] == p[1..] + tail;
      KeptAll(p[1..], tail);
    }
  }

  lemma CleanPacked(p: Path, lim: Limits)
    requires GoodPath(p) && EntryNameOk(NameOf(p), lim)
    ensures Split(NameOf(p), '/') == p
    ensures CleanEntryPath(NameOf(p)) == Some(p) && CleanEntryPath(NameOf(p) + "/") == Some(p)
    ensures !IsMarker(p) && |p| <= lim.maxDepth
  {
    var name := NameOf(p);
    SplitJoin(p, '/');
    assert name[0] == p[0][0];
    KeptAll(p, []);
    assert p + [] == p;
    CleanIs(name, p, p);
    SplitSlashed(p);
    assert Kept([""]) == [] by { assert [""][1..] == []; }
    KeptAll(p, [""]);
    assert (name + "/")[0] == name[0] && (|name| >= 2 ==> (name + "/")[1] == name[1]);
    CleanIs(name + "/", p + [""], p);
  }

  lemma SplitSlashed(p: Path)
    requires GoodPath(p)
    ensures Split(NameOf(p) + "/", '/') == p + [""]
  {
    JoinSnocEmpty(p);
    SplitJoin(p + [""], '/');
  }

  // What a name cleans to, from its segments.
  lemma CleanIs(name: string, parts: seq<string>, p: Path)
    requires name != "" && '\0' !in name && '\\' !in name && name[0] != '/' && !HasDriveLetter(name)
    requires Split(name, '/') == parts && ".." !in parts && Kept(parts) == p
    ensures CleanEntryPath(name) == Some(p)
  {
  }

  function ActionOf(v: Visit): Action
    requires !v.source.body.OtherBody?
  {
    match v.source.body
    case DirBody(_) => PutDir(v.path, Perm(v.source.perm))
    case FileBody(content) => PutLeaf(v.path, File(content, Perm(v.source.perm)))
    case LinkBody(target) => PutLeaf(v.path, Link(target))
  }

  // Packing and extraction apply the same rule to link targets.
  lemma LinkRulesAgree(p: Path, name: string, target: string)
    requires p != [] && Split(name, '/') == p && PackLinkOk(name, target)
    ensures LinkTargetOk(p, target)
  {
    assert Slashed(target) == target;
  }

  lemma HeaderReadsBack(v: Visit, lim: Limits)
    requires GoodPath(v.path) && VisitOk(v, lim)
    ensures Interpret(PackHeader(v)) == Some(ActionOf(v))
  {
    CleanPacked(v.path, lim);
    var h := PackHeader(v);
    assert CleanEntryPath(h.name) == Some(v.path);
    if v.source.body.LinkBody? {
      LinkRulesAgree(v.path, NameOf(v.path), v.source.body.target);
    }
    ReadBack(h, v);
  }

  lemma ReadBack(h: Header, v: Visit)
    requires v.path != [] && CleanEntryPath(h.name) == Some(v.path) && !IsMarker(v.path)
    requires !v.source.body.OtherBody? && h.mode == Perm(v.source.perm)
    requires match v.source.body
             case DirBody(_) => h.kind.Directory?
             case FileBody(content) => h.kind.Regular? && h.content == content
             case LinkBody(target) => h.kind.Symlink? && h.linkname == target && LinkTargetOk(v.path, target)
    ensures Interpret(h) == Some(ActionOf(v))
  {
  }

  /******* What packing accepts, seen from extraction *******/

  // Packing accepts exactly the entries whose header extraction could read as a node of that depth,
  // save for what a header cannot show: setid bits, special files and targets with a NUL.
  lemma VisitIff(v: Visit, lim: Limits)
    requires GoodPath(v.path)
    ensures VisitOk(v, lim) <==>
              && !v.source.setid && !v.source.body.OtherBody? && |v.path| <= lim.maxDepth
              && (v.source.body.LinkBody? ==> '\0' !in v.source.body.target)
              && Legal(PackHeader(v)) && MakesNode(PackHeader(v))
  {
    SegmentsBack(v);
    if VisitOk(v, lim) {
      HeaderReadsBack(v, lim);
      LegalIff(PackHeader(v));
    } else if Legal(PackHeader(v)) && MakesNode(PackHeader(v)) && |v.path| <= lim.maxDepth {
      LegalNameBack(NameOf(v.path), PackHeader(v).name, v.path, lim);
      if v.source.body.LinkBody? && '\0' !in v.source.body.target {
        LegalTargetBack(v.path, v.source.body.target);
      }
    }
  }

  lemma SegmentsBack(v: Visit)
    requires GoodPath(v.path)
    ensures Split(NameOf(v.path), '/') == v.path && Kept(Split(PackHeader(v).name, '/')) == v.path
  {
    SplitJoin(v.path, '/');
    SplitSlashed(v.path);
    KeptAll(v.path, []);
    assert v.path + [] == v.path;
    assert Kept([""]) == [] by { assert [""][1..] == []; }
    KeptAll(v.path, [""]);
  }

  lemma LegalNameBack(name: string, full: string, p: Path, lim: Limits)
    requires name <= full && Split(name, '/') == p && !IsMarker(p) && |p| <= lim.maxDepth
    requires '\\' !in full && '\0' !in full && !HasDriveLetter(full)
    ensures EntryNameOk(name, lim)
  {
    forall c | c in name ensures c in full {
      var i :| 0 <= i < |name| && name[i] == c;
      assert full[i] == c;
    }
  }

  lemma LegalTargetBack(p: Path, target: string)
    requires p != [] && Split(NameOf(p), '/') == p && LegalTarget(|p| - 1, target) && '\0' !in target
    ensures PackLinkOk(NameOf(p), target)
  {
    assert Slashed(target) == target;
    EscapesIff(|p| - 1, Split(target, '/'));
    assert !HasPrefix(target, "/");
  }

  /******* Extraction undoes packing *******/

  function PackedView(src: Source): View
    requires !src.body.OtherBody?
  {
    match src.body
    case DirBody(_) => Folder(Perm(src.perm))
    case FileBody(content) => Leaf(File(content, Perm(src.perm)))
    case LinkBody(target) => Leaf(Link(target))
  }

  // The tree holds exactly the visited paths, each with its content, target and permissions.
  ghost predicate Mirrors(t: Tree, vs: seq<Visit>) {
    && (forall p :: p in t.nodes <==> exists i :: 0 <= i < |vs| && vs[i].path == p)
    && (forall i :: 0 <= i < |vs| ==>
          !vs[i].source.body.OtherBody? && ViewOf(t, vs[i].path) == Some(PackedView(vs[i].source)))
  }

  lemma PrefixesAlreadyThere(t: Tree, p: Path)
    requires WellFormed(t) && (p == [] || IsDir(t, p))
    ensures WithDirs(t, p) == t && CanMakeDirs(t, p)
    ensures forall q :: q in Prefixes(p) ==> IsDir(t, q) && q in t.modes
  {
    forall q | q in Prefixes(p) ensures IsDir(t, q) && q in t.modes {
      if q != p { ParentsAreDirs(t, q, p); }
    }
    assert WithDirs(t, p).nodes == t.nodes;
    assert WithDirs(t, p).modes == t.modes;
    forall q | q in t.nodes && q <= p ensures t.nodes[q].Dir? {
      assert q in Prefixes(p);
    }
  }

  function Grown(t: Tree, v: Visit): Tree
    requires !v.source.body.OtherBody?
  {
    if v.source.body.DirBody?
    then Tree(t.nodes[v.path := Dir], t.modes[v.path := Perm(v.source.perm)])
    else t.(nodes := t.nodes[v.path := ActionOf(v).node])
  }

  // A new entry whose directory is there simply appears.
  lemma FreshEntry(t: Tree, v: Visit)
    requires WellFormed(t) && v.path != [] && v.path !in t.nodes && !v.source.body.OtherBody?
    requires Parent(v.path) == [] || IsDir(t, Parent(v.path))
    ensures Apply(t, ActionOf(v)) == Some(Grown(t, v))
  {
    var p := v.path;
    PrefixesAlreadyThere(t, Parent(p));
    assert Reachable(t, p) by {
      forall q | q in t.nodes && q < p ensures t.nodes[q].Dir? {
        ProperPrefix(q, p);
      }
    }
    assert Removed(t, p) == t by {
      RemovedAbsent(t, p);
      assert t.nodes - {p} == t.nodes;
    }
    if v.source.body.DirBody? {
      FreshDir(t, p, Perm(v.source.perm));
    }
  }

  lemma OneMoreKey<V>(m: map<Path, V>, known: set<Path>, p: Path, x: V)
    requires forall q :: q in known ==> q in m && m[q] == x
    ensures m + (map q | q in known + {p} :: x) == m[p := x]
  {
  }

  lemma OneMoreDefault<V>(m: map<Path, V>, known: set<Path>, p: Path, x: V, y: V)
    requires known <= m.Keys
    ensures ((map q | q in known + {p} :: x) + m)[p := y] == m[p := y]
  {
  }

  lemma FreshDir(t: Tree, p: Path, m: nat)
    requires p != [] && p !in t.nodes && CanMakeDirs(t, Parent(p))
    requires forall q :: q in Prefixes(Parent(p)) ==> IsDir(t, q) && q in t.modes
    ensures CanMakeDirs(t, p)
    ensures WithDirs(t, p).nodes == t.nodes[p := Dir]
    ensures WithDirs(t, p).modes[p := m] == t.modes[p := m]
  {
    assert Prefixes(p) == Prefixes(Parent(p)) + {p} by {
      forall q ensures q in Prefixes(p) <==> q == p || q in Prefixes(Parent(p)) {}
    }
    OneMoreKey(t.nodes, Prefixes(Parent(p)), p, Dir);
    OneMoreDefault(t.modes, Prefixes(Parent(p)), p, DefaultDirMode, m);
    forall q | q in t.nodes && q <= p ensures t.nodes[q].Dir? {
      ProperPrefix(q, p);
    }
  }

  ghost predicate CopiesFit(vs: seq<Visit>) {
    forall i :: 0 <= i < |vs| ==> SizeOf(vs[i]) <= MaxCopy
  }

  // The step of a packed header, given what its header reads back as.
  lemma PackedStep(lim: Limits, st: State, h: Header, v: Visit)
    requires CleanEntryPath(h.name) == Some(v.path) && !v.source.body.OtherBody? && Interpret(h) == Some(ActionOf(v))
    requires h.kind.Regular? <==> v.source.body.FileBody?
    requires v.source.body.FileBody? ==> h.content == v.source.body.content
    requires |v.path| <= lim.maxDepth && st.files < lim.maxFiles
    requires st.bytes + SizeOf(v) <= lim.maxBytes
    requires Apply(st.tree, ActionOf(v)) == Some(Grown(st.tree, v))
    ensures Step(lim, st, h)
            == if SizeOf(v) <= MaxCopy
               then Some(st.(tree := Grown(st.tree, v), files := st.files + 1, bytes := st.bytes + SizeOf(v)))
               else None
  {
    PackedEffect(lim, st, h.kind, |h.content|, v);
  }

  lemma PackedEffect(lim: Limits, st: State, kind: Kind, size: nat, v: Visit)
    requires !v.source.body.OtherBody? && (kind.Regular? <==> v.source.body.FileBody?)
    requires v.source.body.FileBody? ==> size == SizeOf(v)
    requires |v.path| <= lim.maxDepth && st.files < lim.maxFiles && st.bytes + SizeOf(v) <= lim.maxBytes
    requires Apply(st.tree, ActionOf(v)) == Some(Grown(st.tree, v))
    ensures Effect(lim, st, kind, size, |v.path|, ActionOf(v))
            == if SizeOf(v) <= MaxCopy
               then Some(st.(tree := Grown(st.tree, v), files := st.files + 1, bytes := st.bytes + SizeOf(v)))
               else None
  {
    PutEffect(lim, st, kind, size, |v.path|, ActionOf(v), Grown(st.tree, v));
    assert Fits(lim, st, |v.path|);
    assert kind.Regular? ==> (HasBudget(lim, st.bytes, size) <==> SizeOf(v) <= MaxCopy);
  }

  lemma PutEffect(lim: Limits, st: State, kind: Kind, size: nat, depth: nat, act: Action, t: Tree)
    requires (act.PutDir? || act.PutLeaf?) && Apply(st.tree, act) == Some(t)
    ensures Effect(lim, st, kind, size, depth, act)
            == if !Fits(lim, st, depth) || (kind.Regular? && !HasBudget(lim, st.bytes, size)) then None
               else Some(st.(tree := t, files := st.files + 1, bytes := st.bytes + if kind.Regular? then size else 0))
  {
  }

  lemma ParentHeld(t: Tree, vs: seq<Visit>, v: Visit)
    requires Mirrors(t, vs) && Shaped([], vs + [v])
    ensures v.path != [] && (Parent(v.path) == [] || IsDir(t, Parent(v.path)))
  {
    var more := vs + [v];
    assert HeldBefore([], more, |vs|);
    if Parent(v.path) != [] {
      var j :| 0 <= j < |vs| && more[j].path == Parent(v.path) && more[j].source.body.DirBody?;
      assert ViewOf(t, vs[j].path) == Some(PackedView(vs[j].source));
    }
  }

  lemma MirrorStep(lim: Limits, st: State, vs: seq<Visit>, v: Visit)
    requires Unpacked(st, vs)
    requires GoodPath(v.path) && VisitOk(v, lim)
    requires forall i :: 0 <= i < |vs| ==> vs[i].path != v.path
    requires Shaped([], vs + [v])
    requires st.files == |vs| < lim.maxFiles && st.bytes + SizeOf(v) <= lim.maxBytes
    ensures Step(lim, st, PackHeader(v)).Some? <==> SizeOf(v) <= MaxCopy
    ensures Step(lim, st, PackHeader(v)).Some? ==> Unpacked(Step(lim, st, PackHeader(v)).value, vs + [v])
  {
    assert (vs + [v])[..|vs|] == vs;
    var h := PackHeader(v);
    HeaderReadsBack(v, lim);
    CleanPacked(v.path, lim);
    ParentHeld(st.tree, vs, v);
    assert v.path !in st.tree.nodes;
    FreshEntry(st.tree, v);
    PackedStep(lim, st, h, v);
    if Step(lim, st, h).Some? {
      StepWellFormed(lim, st, h);
      MirrorExtends(st.tree, vs, v);
    }
  }

  lemma MirrorExtends(t: Tree, vs: seq<Visit>, v: Visit)
    requires Mirrors(t, vs) && !v.source.body.OtherBody?
    requires forall i :: 0 <= i < |vs| ==> vs[i].path != v.path
    ensures Mirrors(Grown(t, v), vs + [v])
  {
    var after := Grown(t, v);
    var more := vs + [v];
    forall p ensures p in after.nodes <==> exists i :: 0 <= i < |more| && more[i].path == p {
      if p == v.path {
        assert more[|vs|].path == p;
      } else if p in t.nodes {
        var i :| 0 <= i < |vs| && vs[i].path == p;
        assert more[i].path == p;
      }
    }
    forall i | 0 <= i < |more|
      ensures !more[i].source.body.OtherBody? && ViewOf(after, more[i].path) == Some(PackedView(more[i].source))
    {
      if i < |vs| {
        assert more[i] == vs[i];
        assert ViewOf(t, vs[i].path) == Some(PackedView(vs[i].source));
      }
    }
  }

  lemma {:induction false} PrefixShaped(vs: seq<Visit>, n: nat)
    requires Shaped([], vs) && n <= |vs|
    ensures Shaped([], vs[..n])
  {
    var some := vs[..n];
    forall i | 0 <= i < n ensures HeldBefore([], some, i) {
      assert HeldBefore([], vs, i);
      if Parent(vs[i].path) != [] {
        var j :| 0 <= j < i && vs[j].path == Parent(vs[i].path) && vs[j].source.body.DirBody?;
        assert some[j] == vs[j];
      }
    }
  }

  lemma CopiesFitSnoc(vs: seq<Visit>, v: Visit)
    ensures CopiesFit(vs + [v]) <==> CopiesFit(vs) && SizeOf(v) <= MaxCopy
  {
    var more := vs + [v];
    assert forall i :: 0 <= i < |vs| ==> more[i] == vs[i];
    assert more[|vs|] == v;
  }

  ghost predicate Unpacked(st: State, vs: seq<Visit>) {
    Mirrors(st.tree, vs) && WellFormed(st.tree) && st.files == |vs| && st.bytes == TotalSize(vs)
  }

  // Extraction of the visits' headers accepts exactly when the copies fit, and then unpacks them.
  ghost predicate Extracts(lim: Limits, vs: seq<Visit>)
    requires forall i | 0 <= i < |vs| :: vs[i].path != []
  {
    UnpackedIfFit(Steps(lim, Start, Headers(vs)), vs)
  }

  ghost predicate UnpackedIfFit(after: Option<State>, vs: seq<Visit>) {
    (after.Some? <==> CopiesFit(vs)) && (after.Some? ==> Unpacked(after.value, vs))
  }

  lemma StepsOfVisits(lim: Limits, vs: seq<Visit>, n: nat)
    requires (forall j | 0 <= j < |vs| :: vs[j].path != []) && n < |vs|
    ensures var before := Steps(lim, Start, Headers(vs[..n]));
            Steps(lim, Start, Headers(vs[..n + 1])) == if before.None? then None else Step(lim, before.value, PackHeader(vs[n]))
  {
    HeadersSnoc(vs, n);
    StepsSnoc(lim, Start, Headers(vs[..n]), PackHeader(vs[n]));
  }

  lemma ExtractOneMore(lim: Limits, vs: seq<Visit>, n: nat)
    requires (forall j | 0 <= j < |vs| :: vs[j].path != []) && n < |vs| && GoodPath(vs[n].path) && VisitOk(vs[n], lim)
    requires Extracts(lim, vs[..n])
    requires Shaped([], vs[..n] + [vs[n]]) && n < lim.maxFiles && TotalSize(vs[..n]) + SizeOf(vs[n]) <= lim.maxBytes
    ensures Extracts(lim, vs[..n + 1])
  {
    StepsOfVisits(lim, vs, n);
    assert vs[..n + 1] == vs[..n] + [vs[n]];
    OneMoreUnpacked(lim, vs[..n], vs[n], Steps(lim, Start, Headers(vs[..n])), Steps(lim, Start, Headers(vs[..n + 1])));
  }

  lemma OneMoreUnpacked(lim: Limits, vs: seq<Visit>, v: Visit, before: Option<State>, after: Option<State>)
    requires UnpackedIfFit(before, vs)
    requires GoodPath(v.path) && VisitOk(v, lim) && Shaped([], vs + [v])
    requires |vs| < lim.maxFiles && TotalSize(vs) + SizeOf(v) <= lim.maxBytes
    requires after == if before.None? then None else Step(lim, before.value, PackHeader(v))
    ensures UnpackedIfFit(after, vs + [v])
  {
    CopiesFitSnoc(vs, v);
    if before.Some? {
      DistinctFromLast(vs, v);
      MirrorStep(lim, before.value, vs, v);
    }
  }

  lemma DistinctFromLast(vs: seq<Visit>, v: Visit)
    requires Shaped([], vs + [v])
    ensures forall i :: 0 <= i < |vs| ==> vs[i].path != v.path
  {
    var more := vs + [v];
    forall i | 0 <= i < |vs| ensures vs[i].path != v.path {
      assert more[i].path != more[|vs|].path;
    }
  }

  lemma ExtractNone(lim: Limits)
    ensures Extracts(lim, [])
  {
    assert Headers([]) == [];
  }

  // What a walk guarantees and packing checked.
  ghost predicate Packed(lim: Limits, vs: seq<Visit>) {
    && Shaped([], vs) && Packable(vs, lim)
    && (forall j | 0 <= j < |vs| :: vs[j].path != [])
    && (forall v :: v in vs ==> GoodPath(v.path))
  }

  lemma ExtractNext(lim: Limits, vs: seq<Visit>, n: nat)
    requires Packed(lim, vs) && n < |vs| && Extracts(lim, vs[..n])
    ensures Extracts(lim, vs[..n + 1])
  {
    PrefixShaped(vs, n + 1);
    assert vs[..n + 1] == vs[..n] + [vs[n]];
    PackableAt(vs, n, lim);
    ExtractOneMore(lim, vs, n);
  }

  lemma {:induction false} ExtractVisits(lim: Limits, vs: seq<Visit>, n: nat)
    requires Packed(lim, vs) && n <= |vs|
    ensures Extracts(lim, vs[..n])
    decreases n
  {
    if n == 0 {
      ExtractNone(lim);
    } else {
      ExtractVisits(lim, vs, n - 1);
      ExtractNext(lim, vs, n - 1);
    }
  }

  // Every tree that packing accepts is accepted by extraction under the same limits, and comes
  // back with the same paths, contents, link targets and permission bits. The only exception is
  // a file larger than the extractor's copy budget can ever be.
  lemma RoundTrip(kids: seq<Kid>, lim: Limits)
    requires ValidKids(kids) && Packable(Walk([], kids), lim)
    ensures AllSteps(lim, [Headers(Walk([], kids))]).Some? <==> CopiesFit(Walk([], kids))
    ensures CopiesFit(Walk([], kids)) ==>
              Mirrors(AllSteps(lim, [Headers(Walk([], kids))]).value.tree, Walk([], kids))
  {
    var vs := Walk([], kids);
    WalkShape([], kids);
    WalkGood([], kids);
    ExtractVisits(lim, vs, |vs|);
    assert vs[..|vs|] == vs;
    assert [Headers(vs)][..0] == [];
    assert AllSteps(lim, [Headers(vs)]) == Steps(lim, Start, Headers(vs));
  }

  function OneFile(content: Bytes): seq<Kid> {
    [Kid("f", Source(0, false, FileBody(content)))]
  }

  // One file of 2^63 - 1 bytes, under limits that allow just that, packs and does not extract.
  lemma LargestFilePacksOnly(content: Bytes, lim: Limits)
    requires |content| == 0x7fff_ffff_ffff_ffff && lim == Limits(0x7fff_ffff_ffff_ffff, 1, 1)
    ensures ValidKids(OneFile(content)) && Packable(Walk([], OneFile(content)), lim)
    ensures AllSteps(lim, [Headers(Walk([], OneFile(content)))]).None?
  {
    var kids := OneFile(content);
    var v := Visit(["f"], kids[0].source);
    WalkShape([], kids);
    assert kids[1..] == [] && [] + [kids[0].name] == ["f"];
    assert Walk([], kids) == [v];
    OneLetterName(lim);
    assert [v][..0] == [];
    assert TotalSize([v]) == SizeOf(v);
    assert SizeOf([v][0]) == MaxCopy + 1;
    RoundTrip(kids, lim);
  }

  lemma OneLetterName(lim: Limits)
    requires lim.maxDepth == 1
    ensures NameOf(["f"]) == "f" && EntryNameOk("f", lim)
  {
    assert Split("f", '/') == ["f"];
    assert |"f"| < |WhiteoutPrefix|;
  }
}
