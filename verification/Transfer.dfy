/**
 Copying images and indexes from a source registry into the store.

 The source may fail at any point; what it does deliver is content under its digest. The spec of the
 recursive copy is the set of digests a walk visits that stops at what the repository held when the
 copy began (`Brought`); the code instead asks again before every child.
 */
module Transfer {
  import opened Wrappers
  import opened Registry
  import opened Graph

  // A platform selection: None copies every child.
  type Selection = Option<set<Digest>>

  predicate Selects(sel: Selection, c: Digest) {
    sel.None? || c in sel.value
  }

  // What copying the selected ones of `kids` adds to a repository that holds `held`.
  ghost function Brought(w: World, rank: Digest -> nat, kids: seq<Digest>, sel: Selection, held: set<Digest>): set<Digest>
    requires Acyclic(w, rank)
  {
    set c, x | c in kids && Selects(sel, c) && c !in held && x in Walk(w, rank, c, Outside(held)) :: x
  }

  ghost function NeedsOf(w: World, s: set<Digest>): set<Digest> {
    set m, b | m in s && b in Needs(w, m) :: b
  }

  // Every step of a transfer advances, and the bytes counted are the bytes gained.
  ghost predicate Moved(w: World, sc: Scope, a: Snapshot, was: seq<Snapshot>, b: Snapshot, now: seq<Snapshot>, n: nat) {
    && was <= now && AllAdvance(w, sc, a, now, |was|) && Advances(w, sc, a, b)
    && n == Total(w, In(b, sc.repo).blobs - In(a, sc.repo).blobs)
  }

  lemma MovedTransitive(w: World, sc: Scope, a: Snapshot, ta: seq<Snapshot>, b: Snapshot, tb: seq<Snapshot>,
                        c: Snapshot, tc: seq<Snapshot>, m: nat, n: nat)
    requires Moved(w, sc, a, ta, b, tb, m) && Moved(w, sc, b, tb, c, tc, n)
    ensures Moved(w, sc, a, ta, c, tc, m + n)
  {
    AllAdvanceTransitive(w, sc, a, b, tb, tc, |ta|);
    AdvancesTransitive(w, sc, a, b, c);
    TotalGain(w, In(a, sc.repo).blobs, In(b, sc.repo).blobs, In(c, sc.repo).blobs);
  }

  lemma NotMoved(w: World, sc: Scope, a: Snapshot, trail: seq<Snapshot>)
    ensures Moved(w, sc, a, trail, a, trail, 0)
  {
    TotalZero(w, In(a, sc.repo).blobs - In(a, sc.repo).blobs);
  }

  /******* Blobs and images *******/

  // Nothing of the image's manifest is missing a digest.
  predicate Copyable(w: World, d: Digest) {
    w.doc(d).Image? ==> "" !in w.doc(d).layers && w.doc(d).config != ""
  }

  // Every image among these names all its blobs; a copy of them fails only with its last request.
  ghost predicate AllCopyable(w: World, s: set<Digest>) {
    forall d :: d in s ==> Copyable(w, d)
  }

  // Fetch one blob unless the repository has it.
  method CopyBlob(reg: Registry, w: World, repo: RepoName, b: Digest, ghost sc: Scope) returns (ok: bool, n: nat)
    requires sc.repo == repo
    modifies reg
    ensures Moved(w, sc, old(reg.repos), old(reg.trail), reg.repos, reg.trail, n)
    ensures ok ==> In(reg.repos, repo) == old(In(reg.repos, repo)).(blobs := old(In(reg.repos, repo)).blobs + {b})
    ensures ok ==> b != ""
    ensures !ok ==> reg.repos == old(reg.repos)
    ensures old(reg.requests) <= reg.requests && (!ok ==> b == "" || reg.LastFailed(old(reg.requests)))
  {
    ghost var before := In(reg.repos, repo).blobs;
    NotMoved(w, sc, reg.repos, reg.trail);
    if b == "" {
      return false, 0;
    }
    if b in In(reg.repos, repo).blobs {
      assert before + {b} == before;
      return true, 0;
    }
    var unserved := reg.Fails();
    if unserved {
      return false, 0;
    }
    ok := reg.WriteBlob(repo, b);
    if ok {
      TotalOne(w, before, b);
      n := w.size(b);
    } else {
      n := 0;
    }
  }

  // Layers, then the config, then the manifest - with its tag when it is the object asked for.
  method CopyImage(reg: Registry, w: World, repo: RepoName, d: Digest, tag: Tag, ghost sc: Scope)
    returns (ok: bool, n: nat)
    requires w.doc(d).Image? && sc.repo == repo && (tag != "" ==> sc.tag == tag && sc.target == d)
    modifies reg
    ensures Moved(w, sc, old(reg.repos), old(reg.trail), reg.repos, reg.trail, n)
    ensures In(reg.repos, repo).manifests <= old(In(reg.repos, repo).manifests) + {d}
    ensures In(reg.repos, repo).blobs <= old(In(reg.repos, repo).blobs) + Needs(w, d)
    ensures ok ==> In(reg.repos, repo).manifests == old(In(reg.repos, repo).manifests) + {d}
    ensures ok ==> In(reg.repos, repo).blobs == old(In(reg.repos, repo).blobs) + Needs(w, d)
    ensures In(reg.repos, repo).tags ==
            if ok && tag != "" then old(In(reg.repos, repo).tags)[tag := d] else old(In(reg.repos, repo).tags)
    ensures ok ==> Copyable(w, d)
    ensures old(reg.requests) <= reg.requests && (!ok ==> !Copyable(w, d) || reg.LastFailed(old(reg.requests)))
  {
    var unknown := reg.Fails();
    NotMoved(w, sc, reg.repos, reg.trail);
    if unknown {
      return false, 0;
    }
    ok, n := CopyBlobs(reg, w, repo, d, sc);
    if !ok {
      return;
    }
    ghost var mid, trail := reg.repos, reg.trail;
    ok := reg.PutManifest(repo, d, tag, w, sc);
    TotalZero(w, In(reg.repos, repo).blobs - In(mid, repo).blobs);
    MovedTransitive(w, sc, old(reg.repos), old(reg.trail), mid, trail, reg.repos, reg.trail, n, 0);
  }

  method CopyBlobs(reg: Registry, w: World, repo: RepoName, d: Digest, ghost sc: Scope) returns (ok: bool, n: nat)
    requires w.doc(d).Image? && sc.repo == repo
    modifies reg
    ensures Moved(w, sc, old(reg.repos), old(reg.trail), reg.repos, reg.trail, n)
    ensures In(reg.repos, repo).manifests == old(In(reg.repos, repo).manifests)
    ensures In(reg.repos, repo).tags == old(In(reg.repos, repo).tags)
    ensures In(reg.repos, repo).blobs <= old(In(reg.repos, repo).blobs) + Needs(w, d)
    ensures ok ==> In(reg.repos, repo).blobs == old(In(reg.repos, repo).blobs) + Needs(w, d) && Copyable(w, d)
    ensures old(reg.requests) <= reg.requests && (!ok ==> !Copyable(w, d) || reg.LastFailed(old(reg.requests)))
  {
    var list := w.doc(d).layers + [w.doc(d).config];
    NotMoved(w, sc, reg.repos, reg.trail);
    n := 0;
    var i := 0;
    while i < |list|
      invariant 0 <= i <= |list|
      invariant Moved(w, sc, old(reg.repos), old(reg.trail), reg.repos, reg.trail, n)
      invariant In(reg.repos, repo).manifests == old(In(reg.repos, repo).manifests)
      invariant In(reg.repos, repo).tags == old(In(reg.repos, repo).tags)
      invariant In(reg.repos, repo).blobs == old(In(reg.repos, repo).blobs) + Members(list[..i])
      invariant "" !in list[..i] && old(reg.requests) <= reg.requests
    {
      ghost var mid, trail, was := reg.repos, reg.trail, n;
      var k;
      ok, k := CopyBlob(reg, w, repo, list[i], sc);
      n := n + k;
      MovedTransitive(w, sc, old(reg.repos), old(reg.trail), mid, trail, reg.repos, reg.trail, was, k);
      MembersStep(w, d, list, i);
      if !ok {
        assert list[i] in list;
        return;
      }
      i := i + 1;
    }
    assert list[..i] == list;
    ok := true;
  }

  function Members(list: seq<Digest>): set<Digest> {
    set b | b in list
  }

  lemma MembersStep(w: World, d: Digest, list: seq<Digest>, i: nat)
    requires w.doc(d).Image? && list == w.doc(d).layers + [w.doc(d).config] && i < |list| && "" !in list[..i]
    ensures Members(list[..i + 1]) == Members(list[..i]) + {list[i]} && Members(list[..i]) <= Needs(w, d)
    ensures list[i] != "" ==> "" !in list[..i + 1]
    ensures "" !in list ==> Members(list) == Needs(w, d)
  {
    assert list[..i + 1] == list[..i] + [list[i]];
    assert forall b :: b in list[..i] ==> b in list;
  }

  /******* Indexes *******/

  // One child of an index, unless the repository has it.
  method CopyChild(reg: Registry, w: World, ghost rank: Digest -> nat, repo: RepoName, c: Digest, ghost sc: Scope)
    returns (ok: bool, n: nat)
    requires Acyclic(w, rank) && sc.repo == repo
    modifies reg
    ensures Moved(w, sc, old(reg.repos), old(reg.trail), reg.repos, reg.trail, n)
    ensures In(reg.repos, repo).tags == old(In(reg.repos, repo).tags)
    ensures c in old(In(reg.repos, repo).manifests) ==> ok && n == 0 && reg.repos == old(reg.repos)
    ensures ok && c !in old(In(reg.repos, repo).manifests) ==>
              Adds(w, old(In(reg.repos, repo)), In(reg.repos, repo), Walk(w, rank, c, Outside(old(In(reg.repos, repo).manifests))))
    ensures old(reg.requests) <= reg.requests
    ensures !ok ==> reg.LastFailed(old(reg.requests)) || !AllCopyable(w, Walk(w, rank, c, Outside(old(In(reg.repos, repo).manifests))))
    decreases rank(c), 2
  {
    NotMoved(w, sc, reg.repos, reg.trail);
    if c in In(reg.repos, repo).manifests {
      return true, 0;
    }
    var unfetched := reg.Fails();
    if unfetched {
      return false, 0;
    }
    if w.doc(c).Index? {
      ok, n := CopyNested(reg, w, rank, repo, c, sc);
    } else {
      ok, n := CopyImage(reg, w, repo, c, "", sc);
    }
  }

  // The repository gained exactly these manifests, with their blobs, and kept its tags.
  ghost predicate Adds(w: World, a: Repo, b: Repo, s: set<Digest>) {
    b.manifests == a.manifests + s && b.blobs == a.blobs + NeedsOf(w, s) && b.tags == a.tags
  }

  // The selected children are all there.
  ghost predicate AllHeld(kids: seq<Digest>, sel: Selection, held: set<Digest>) {
    forall c :: c in kids && Selects(sel, c) ==> c in held
  }

  // The i-th child of an index, if the selection names it.
  method CopySelected(reg: Registry, w: World, ghost rank: Digest -> nat, repo: RepoName, kids: seq<Digest>, i: nat,
                      sel: Selection, ghost start: Repo, ghost sc: Scope)
    returns (ok: bool, n: nat)
    requires Acyclic(w, rank) && sc.repo == repo && i < |kids|
    requires Adds(w, start, In(reg.repos, repo), Brought(w, rank, kids[..i], sel, start.manifests))
    modifies reg
    ensures Moved(w, sc, old(reg.repos), old(reg.trail), reg.repos, reg.trail, n)
    ensures In(reg.repos, repo).tags == start.tags
    ensures ok ==> Adds(w, start, In(reg.repos, repo), Brought(w, rank, kids[..i + 1], sel, start.manifests))
    ensures !Selects(sel, kids[i]) || kids[i] in old(In(reg.repos, repo).manifests) ==>
              ok && n == 0 && reg.repos == old(reg.repos)
    ensures old(reg.requests) <= reg.requests
    ensures !ok ==> reg.LastFailed(old(reg.requests)) || !AllCopyable(w, Brought(w, rank, kids, sel, start.manifests))
    decreases rank(kids[i]), 3
  {
    if sel.Some? && kids[i] !in sel.value {
      BroughtStep(w, rank, kids, i, sel, start.manifests);
      NotMoved(w, sc, reg.repos, reg.trail);
      return true, 0;
    }
    ghost var mid := reg.repos;
    ok, n := CopyChild(reg, w, rank, repo, kids[i], sc);
    if ok {
      AddsStep(w, rank, kids, i, sel, start, In(mid, repo), In(reg.repos, repo));
    } else {
      BroughtBelow(w, rank, kids, i, sel, start.manifests, In(mid, repo).manifests);
    }
  }

  // The children of an index that the selection names.
  method CopyChildren(reg: Registry, w: World, ghost rank: Digest -> nat, repo: RepoName, d: Digest, sel: Selection, ghost sc: Scope)
    returns (ok: bool, n: nat)
    requires Acyclic(w, rank) && w.doc(d).Index? && sc.repo == repo
    modifies reg
    ensures Moved(w, sc, old(reg.repos), old(reg.trail), reg.repos, reg.trail, n)
    ensures In(reg.repos, repo).tags == old(In(reg.repos, repo).tags)
    ensures ok ==> Adds(w, old(In(reg.repos, repo)), In(reg.repos, repo),
                        Brought(w, rank, Children(w, d), sel, old(In(reg.repos, repo).manifests)))
    ensures AllHeld(Children(w, d), sel, old(In(reg.repos, repo).manifests)) ==> ok && n == 0 && reg.repos == old(reg.repos)
    ensures old(reg.requests) <= reg.requests
    ensures !ok ==> reg.LastFailed(old(reg.requests)) || !AllCopyable(w, Brought(w, rank, Children(w, d), sel, old(In(reg.repos, repo).manifests)))
    decreases rank(d), 0
  {
    var kids := w.doc(d).children;
    NotMoved(w, sc, reg.repos, reg.trail);
    AddsNothing(w, rank, kids, sel, In(reg.repos, repo));
    n, ok := 0, true;
    for i := 0 to |kids|
      invariant Copying(w, rank, sc, kids, i, sel, old(reg.repos), old(reg.trail), reg.repos, reg.trail, n)
      invariant ok && old(reg.requests) <= reg.requests
    {
      ok, n := CopyNth(reg, w, rank, repo, kids, i, sel, sc, n, old(reg.repos), old(reg.trail));
      if !ok {
        return;
      }
    }
    assert kids[..|kids|] == kids;
  }

  // The first i children of a selection were copied, from state a to state b.
  ghost predicate Copying(w: World, rank: Digest -> nat, sc: Scope, kids: seq<Digest>, i: nat, sel: Selection,
                          a: Snapshot, ta: seq<Snapshot>, b: Snapshot, tb: seq<Snapshot>, n: nat)
    requires Acyclic(w, rank) && i <= |kids|
  {
    && Moved(w, sc, a, ta, b, tb, n)
    && Adds(w, In(a, sc.repo), In(b, sc.repo), Brought(w, rank, kids[..i], sel, In(a, sc.repo).manifests))
    && (AllHeld(kids, sel, In(a, sc.repo).manifests) ==> n == 0 && b == a)
  }

  // One more child, after n bytes.
  method CopyNth(reg: Registry, w: World, ghost rank: Digest -> nat, repo: RepoName, kids: seq<Digest>, i: nat,
                 sel: Selection, ghost sc: Scope, n: nat, ghost a: Snapshot, ghost ta: seq<Snapshot>)
    returns (ok: bool, total: nat)
    requires Acyclic(w, rank) && sc.repo == repo && i < |kids|
    requires Copying(w, rank, sc, kids, i, sel, a, ta, reg.repos, reg.trail, n)
    modifies reg
    ensures Moved(w, sc, a, ta, reg.repos, reg.trail, total) && In(reg.repos, repo).tags == In(a, repo).tags
    ensures ok ==> Copying(w, rank, sc, kids, i + 1, sel, a, ta, reg.repos, reg.trail, total)
    ensures old(reg.requests) <= reg.requests
    ensures !ok ==> !AllHeld(kids, sel, In(a, repo).manifests)
    ensures !ok ==> reg.LastFailed(old(reg.requests)) || !AllCopyable(w, Brought(w, rank, kids, sel, In(a, repo).manifests))
    decreases rank(kids[i]), 4
  {
    ghost var mid, trail := reg.repos, reg.trail;
    assert kids[i] in kids;
    var k;
    ok, k := CopySelected(reg, w, rank, repo, kids, i, sel, In(a, repo), sc);
    total := n + k;
    MovedTransitive(w, sc, a, ta, mid, trail, reg.repos, reg.trail, n, k);
  }

  // A nested index: all its children, then the index, untagged.
  method CopyNested(reg: Registry, w: World, ghost rank: Digest -> nat, repo: RepoName, d: Digest, ghost sc: Scope)
    returns (ok: bool, n: nat)
    requires Acyclic(w, rank) && w.doc(d).Index? && sc.repo == repo
    modifies reg
    ensures Moved(w, sc, old(reg.repos), old(reg.trail), reg.repos, reg.trail, n)
    ensures In(reg.repos, repo).tags == old(In(reg.repos, repo).tags)
    ensures ok ==> Adds(w, old(In(reg.repos, repo)), In(reg.repos, repo),
                        Walk(w, rank, d, Outside(old(In(reg.repos, repo).manifests))))
    ensures old(reg.requests) <= reg.requests
    ensures !ok ==> reg.LastFailed(old(reg.requests)) || !AllCopyable(w, Walk(w, rank, d, Outside(old(In(reg.repos, repo).manifests))))
    decreases rank(d), 1
  {
    BroughtAll(w, rank, d, In(reg.repos, repo).manifests);
    ok, n := CopyChildren(reg, w, rank, repo, d, None, sc);
    if !ok {
      return;
    }
    ghost var mid := reg.repos;
    ChildrenThere(w, rank, d, old(In(reg.repos, repo)), In(mid, repo));
    ok := PutNested(reg, w, repo, d, sc, n, old(reg.repos), old(reg.trail));
    if ok {
      AddsNested(w, rank, old(In(reg.repos, repo)), In(mid, repo), In(reg.repos, repo), d);
    }
  }

  // The nested index itself, once its children are there.
  method PutNested(reg: Registry, ghost w: World, repo: RepoName, d: Digest, ghost sc: Scope, ghost n: nat, ghost a: Snapshot, ghost ta: seq<Snapshot>)
    returns (ok: bool)
    requires sc.repo == repo && Moved(w, sc, a, ta, reg.repos, reg.trail, n)
    requires Needs(w, d) == {} && forall c :: c in Children(w, d) ==> c in In(reg.repos, repo).manifests
    modifies reg
    ensures Moved(w, sc, a, ta, reg.repos, reg.trail, n)
    ensures In(reg.repos, repo).tags == old(In(reg.repos, repo)).tags && In(reg.repos, repo).blobs == old(In(reg.repos, repo)).blobs
    ensures ok ==> In(reg.repos, repo).manifests == old(In(reg.repos, repo)).manifests + {d}
    ensures old(reg.requests) <= reg.requests && (!ok ==> reg.LastFailed(old(reg.requests)))
  {
    ghost var mid, trail := reg.repos, reg.trail;
    ok := reg.PutManifest(repo, d, "", w, sc);
    PutMoved(w, sc, a, ta, mid, trail, reg.repos, reg.trail, n);
  }

  lemma ChildrenThere(w: World, rank: Digest -> nat, d: Digest, a: Repo, b: Repo)
    requires Acyclic(w, rank) && w.doc(d).Index? && Adds(w, a, b, Brought(w, rank, Children(w, d), None, a.manifests))
    ensures Needs(w, d) == {} && forall c :: c in Children(w, d) ==> c in b.manifests
  {
    BroughtHas(w, rank, Children(w, d), None, a.manifests);
  }

  // Storing a manifest moves no blob.
  lemma PutMoved(w: World, sc: Scope, a: Snapshot, ta: seq<Snapshot>, b: Snapshot, tb: seq<Snapshot>, c: Snapshot, tc: seq<Snapshot>, n: nat)
    requires Moved(w, sc, a, ta, b, tb, n) && tb <= tc && AllAdvance(w, sc, b, tc, |tb|) && Advances(w, sc, b, c)
    requires In(c, sc.repo).blobs == In(b, sc.repo).blobs
    ensures Moved(w, sc, a, ta, c, tc, n)
  {
    TotalZero(w, In(c, sc.repo).blobs - In(b, sc.repo).blobs);
    MovedTransitive(w, sc, a, ta, b, tb, c, tc, n, 0);
  }

  // The index under its tag, its selected children first. At every step each image present has its
  // blobs and each new index below it all its children; on success the repository gained exactly
  // what a walk over the initially missing digests visits; a repeat moves nothing.
  method CopyIndex(reg: Registry, w: World, ghost rank: Digest -> nat, repo: RepoName, tag: Tag, d: Digest, sel: Selection)
    returns (ok: bool, n: nat)
    requires Acyclic(w, rank) && w.doc(d).Index?
    modifies reg
    ensures var sc := Scope(repo, tag, d, Everything, if sel.None? then {} else {d});
            Moved(w, sc, old(reg.repos), old(reg.trail), reg.repos, reg.trail, n)
    ensures ok ==> Adds(w, old(In(reg.repos, repo)), In(reg.repos, repo).(tags := old(In(reg.repos, repo)).tags),
                        {d} + Brought(w, rank, Children(w, d), sel, old(In(reg.repos, repo).manifests)))
    ensures In(reg.repos, repo).tags ==
            if ok && tag != "" then old(In(reg.repos, repo).tags)[tag := d] else old(In(reg.repos, repo).tags)
    ensures ok ==> AllHeld(Children(w, d), sel, In(reg.repos, repo).manifests)
    ensures AllHeld(Children(w, d), sel, old(In(reg.repos, repo).manifests)) ==>
              n == 0 && In(reg.repos, repo).manifests <= old(In(reg.repos, repo).manifests) + {d}
    ensures old(reg.requests) <= reg.requests
    ensures !ok ==> reg.LastFailed(old(reg.requests)) || !AllCopyable(w, Brought(w, rank, Children(w, d), sel, old(In(reg.repos, repo).manifests)))
  {
    ghost var sc := Scope(repo, tag, d, Everything, if sel.None? then {} else {d});
    ghost var start := In(reg.repos, repo);
    ok, n := CopyChildren(reg, w, rank, repo, d, sel, sc);
    if !ok {
      return;
    }
    ghost var mid, trail := reg.repos, reg.trail;
    ghost var s := Brought(w, rank, Children(w, d), sel, start.manifests);
    BroughtHas(w, rank, Children(w, d), sel, start.manifests);
    ok := reg.PutManifest(repo, d, tag, w, sc);
    if ok {
      AddsIndex(w, start, In(mid, repo), In(reg.repos, repo), s, d);
    }
    TotalZero(w, In(reg.repos, repo).blobs - In(mid, repo).blobs);
    MovedTransitive(w, sc, old(reg.repos), old(reg.trail), mid, trail, reg.repos, reg.trail, n, 0);
  }

  /******* Pinned content *******/

  // The manifest is there and its tag is on it.
  predicate UpToDate(r: Repo, tag: Tag, d: Digest) {
    d in r.manifests && tag in r.tags && r.tags[tag] == d
  }

  // Pinned content is copied unless it is up to date, which says nothing about its children: after a
  // success the selected ones are there exactly if it was not up to date or they were there before.
  method FetchPinned(reg: Registry, w: World, ghost rank: Digest -> nat, repo: RepoName, tag: Tag, d: Digest, sel: Selection)
    returns (ok: bool, n: nat)
    requires Acyclic(w, rank) && tag != ""
    modifies reg
    ensures UpToDate(old(In(reg.repos, repo)), tag, d) ==> ok && n == 0 && reg.repos == old(reg.repos) && reg.trail == old(reg.trail)
    ensures ok ==> UpToDate(In(reg.repos, repo), tag, d)
    ensures ok ==> (AllHeld(Children(w, d), sel, In(reg.repos, repo).manifests)
                    <==> !UpToDate(old(In(reg.repos, repo)), tag, d) || AllHeld(Children(w, d), sel, old(In(reg.repos, repo).manifests)))
    ensures AllHeld(Children(w, d), sel, old(In(reg.repos, repo).manifests)) ==>
              In(reg.repos, repo).manifests <= old(In(reg.repos, repo).manifests) + {d}
    ensures reg.Calm() && Copyable(w, d) && AllCopyable(w, Brought(w, rank, Children(w, d), sel, old(In(reg.repos, repo).manifests))) ==> ok
  {
    if UpToDate(In(reg.repos, repo), tag, d) {
      return true, 0;
    }
    if w.doc(d).Index? {
      ok, n := CopyIndex(reg, w, rank, repo, tag, d, sel);
    } else {
      ok, n := CopyImage(reg, w, repo, d, tag, Scope(repo, tag, d, Everything, {}));
    }
  }

  // One platform was fetched, then the selection widened under the same digest and tag: nothing
  // fails, nothing moves, and the other platform is not there.
  method WidenedSelection() returns (ok: bool, n: nat, held: set<Digest>)
    ensures ok && n == 0 && "arm64" in Children(World(SparseDoc, _ => 1), "nested") && "arm64" !in held
  {
    var w := World(SparseDoc, _ => 1);
    SparseIsAcyclic(w);
    var reg := new Registry(map["lib" := Repo({"config"}, {"amd64"}, map[])], _ => false, _ => false, _ => false);
    ok, n := FetchPinned(reg, w, SparseRank, "lib", "1", "nested", Some({"amd64"}));
    ok, n := FetchPinned(reg, w, SparseRank, "lib", "1", "nested", Some({"amd64", "arm64"}));
    held := In(reg.repos, "lib").manifests;
  }

  lemma SparseIsAcyclic(w: World)
    requires w.doc == SparseDoc
    ensures Acyclic(w, SparseRank) && Children(w, "nested") == ["amd64", "arm64"] && "arm64" != "amd64" && "arm64" != "nested"
  {
    assert |"amd64"| == |"arm64"| == 5 && |"top"| == 3 && |"nested"| == 6 && "arm64"[1] != "amd64"[1];
  }

  /******* Why skipping is sound *******/

  lemma AddsNothing(w: World, rank: Digest -> nat, kids: seq<Digest>, sel: Selection, a: Repo)
    requires Acyclic(w, rank)
    ensures Adds(w, a, a, Brought(w, rank, kids[..0], sel, a.manifests))
  {
    assert Brought(w, rank, kids[..0], sel, a.manifests) == {};
    assert NeedsOf(w, {}) == {};
  }

  lemma BroughtStep(w: World, rank: Digest -> nat, kids: seq<Digest>, i: nat, sel: Selection, held: set<Digest>)
    requires Acyclic(w, rank) && i < |kids|
    ensures Brought(w, rank, kids[..i + 1], sel, held)
            == Brought(w, rank, kids[..i], sel, held)
               + if Selects(sel, kids[i]) && kids[i] !in held then Walk(w, rank, kids[i], Outside(held)) else {}
  {
    assert kids[..i + 1] == kids[..i] + [kids[i]];
  }

  // What is copied for a child is brought, or was brought before it.
  lemma BroughtBelow(w: World, rank: Digest -> nat, kids: seq<Digest>, i: nat, sel: Selection, held: set<Digest>, now: set<Digest>)
    requires Acyclic(w, rank) && i < |kids| && Selects(sel, kids[i]) && kids[i] !in now && held <= now
    ensures Walk(w, rank, kids[i], Outside(now)) <= Brought(w, rank, kids, sel, held)
  {
    WalkClosed(w, rank, kids[i], Outside(held));
    WalkLeast(w, rank, kids[i], Outside(now), Walk(w, rank, kids[i], Outside(held)));
  }

  lemma BroughtClosed(w: World, rank: Digest -> nat, kids: seq<Digest>, sel: Selection, held: set<Digest>)
    requires Acyclic(w, rank)
    ensures ClosedUnder(w, Brought(w, rank, kids, sel, held), Outside(held))
  {
    var s, go := Brought(w, rank, kids, sel, held), Outside(held);
    forall x, c | x in s && c in Children(w, x) && c in go ensures c in s {
      var k :| k in kids && Selects(sel, k) && k !in held && x in Walk(w, rank, k, go);
      WalkClosed(w, rank, k, go);
      assert c in Walk(w, rank, k, go);
    }
  }

  // Whether a child was held, was stored a moment ago or is copied now, the sum is the same.
  lemma AddsStep(w: World, rank: Digest -> nat, kids: seq<Digest>, i: nat, sel: Selection, a: Repo, b: Repo, c: Repo)
    requires Acyclic(w, rank) && i < |kids| && Selects(sel, kids[i])
    requires Adds(w, a, b, Brought(w, rank, kids[..i], sel, a.manifests))
    requires if kids[i] in b.manifests then c == b
             else Adds(w, b, c, Walk(w, rank, kids[i], Outside(b.manifests)))
    ensures Adds(w, a, c, Brought(w, rank, kids[..i + 1], sel, a.manifests))
  {
    var kid, held, s := kids[i], a.manifests, Brought(w, rank, kids[..i], sel, a.manifests);
    BroughtStep(w, rank, kids, i, sel, held);
    BroughtClosed(w, rank, kids[..i], sel, held);
    if kid in s {
      WalkLeast(w, rank, kid, Outside(held), s);
    } else if kid !in held {
      SkipStored(w, rank, kid, held, s);
      NeedsOfUnion(w, s, Walk(w, rank, kid, Outside(held + s)), Walk(w, rank, kid, Outside(held)));
    }
  }

  lemma NeedsOfUnion(w: World, s: set<Digest>, t: set<Digest>, u: set<Digest>)
    requires s + t == s + u
    ensures NeedsOf(w, s) + NeedsOf(w, t) == NeedsOf(w, s + u)
  {
    assert NeedsOf(w, s) + NeedsOf(w, t) == NeedsOf(w, s + t);
  }

  lemma BroughtAll(w: World, rank: Digest -> nat, d: Digest, held: set<Digest>)
    requires Acyclic(w, rank)
    ensures Walk(w, rank, d, Outside(held)) == {d} + Brought(w, rank, Children(w, d), None, held)
  {
    var kids, go := Children(w, d), Outside(held);
    forall x ensures x in Walks(w, rank, kids, go, rank(d)) <==> x in Brought(w, rank, kids, None, held) {
      if x in Brought(w, rank, kids, None, held) {
        var c :| c in kids && c !in held && x in Walk(w, rank, c, go);
        assert c in go;
      }
    }
  }

  lemma AddsIndex(w: World, a: Repo, b: Repo, c: Repo, s: set<Digest>, d: Digest)
    requires Adds(w, a, b, s) && w.doc(d).Index?
    requires c.manifests == b.manifests + {d} && c.blobs == b.blobs
    ensures Adds(w, a, c.(tags := a.tags), {d} + s)
  {
    assert NeedsOf(w, {d} + s) == NeedsOf(w, s);
  }

  lemma AddsNested(w: World, rank: Digest -> nat, a: Repo, b: Repo, c: Repo, d: Digest)
    requires Acyclic(w, rank) && w.doc(d).Index?
    requires Adds(w, a, b, Brought(w, rank, Children(w, d), None, a.manifests))
    requires c.manifests == b.manifests + {d} && c.blobs == b.blobs && c.tags == b.tags
    ensures Adds(w, a, c, Walk(w, rank, d, Outside(a.manifests)))
  {
    BroughtAll(w, rank, d, a.manifests);
    AddsIndex(w, a, b, c, Brought(w, rank, Children(w, d), None, a.manifests), d);
  }

  lemma BroughtHas(w: World, rank: Digest -> nat, kids: seq<Digest>, sel: Selection, held: set<Digest>)
    requires Acyclic(w, rank)
    ensures AllHeld(kids, sel, held + Brought(w, rank, kids, sel, held))
  {
    forall c | c in kids && Selects(sel, c) && c !in held ensures c in Brought(w, rank, kids, sel, held) {
      assert c in Walk(w, rank, c, Outside(held));
    }
  }

  /******* The whole closure *******/

  // A complete copy leaves the whole closure present exactly when no index that was already held
  // below d lacks a child the copy does not bring.
  lemma CopyBringsClosureIff(w: World, rank: Digest -> nat, d: Digest, a: Repo, b: Repo)
    requires Acyclic(w, rank) && BlobClosed(w, a)
    requires Adds(w, a, b, {d} + Brought(w, rank, Children(w, d), None, a.manifests))
    ensures Closure(w, rank, d) <= b.manifests <==> NoSparseIndexBelow(w, rank, d, a.manifests)
    ensures NoSparseIndexBelow(w, rank, d, a.manifests) ==> NeedsOf(w, Closure(w, rank, d)) <= b.blobs
  {
    BroughtAll(w, rank, d, a.manifests);
    WholeClosureIff(w, rank, d, a.manifests);
  }

  function SparseDoc(d: Digest): Manifest {
    if d == "top" then Index(["nested"])
    else if d == "nested" then Index(["amd64", "arm64"])
    else Image("config", [])
  }

  function SparseRank(d: Digest): nat {
    if d == "top" then 2 else if d == "nested" then 1 else 0
  }

  // An index stored sparse under another tag hides its missing children from a later full copy.
  lemma SparseNestedIndexHides()
    ensures var w := World(SparseDoc, _ => 1);
            var held := {"nested", "amd64"};
            && Acyclic(w, SparseRank)
            && Brought(w, SparseRank, Children(w, "top"), None, held) == {}
            && "arm64" in Closure(w, SparseRank, "top")
            && !NoSparseIndexBelow(w, SparseRank, "top", held)
  {
    var w := World(SparseDoc, _ => 1);
    var held, kids := {"nested", "amd64"}, Children(w, "top");
    assert |"amd64"| == |"arm64"| == 5 && |"top"| == 3 && |"nested"| == 6 && "arm64"[1] != "amd64"[1];
    assert Acyclic(w, SparseRank);
    var all := Closure(w, SparseRank, "top");
    BroughtAll(w, SparseRank, "top", held);
    WalkClosed(w, SparseRank, "top", Everything);
    assert kids == ["nested"];
    assert Brought(w, SparseRank, kids, None, held) == {};
    assert "nested" in Everything && "nested" in kids;
    assert "nested" in all;
    assert "arm64" in Everything && Children(w, "nested")[1] == "arm64";
    assert "arm64" in all;
    assert "arm64" !in held && "arm64" !in Walk(w, SparseRank, "top", Outside(held));
  }
}
