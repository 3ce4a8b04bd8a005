/**
 Pushing a manifest and everything it references from the store into a destination registry.

 Unlike the copy into the store, every child is offered again; the destination decides blob by blob
 what has to travel, and a child the store cannot deliver is skipped.
 */
module Push {
  import opened Wrappers
  import opened Registry
  import opened Graph

  datatype Pushed = Done | NotFound | Failed

  // The source holds the manifest, and each of its blobs is in the source or already delivered.
  predicate Pushable(w: World, src: Repo, avail: set<Digest>, d: Digest) {
    d in src.manifests && Needs(w, d) <= avail
  }

  ghost function Deliverable(w: World, src: Repo, avail: set<Digest>): iset<Digest> {
    iset d: Digest | Pushable(w, src, avail, d)
  }

  function BlobList(w: World, d: Digest): seq<Digest> {
    match w.doc(d)
    case Image(config, layers) => [config] + layers
    case Index(_) => []
  }

  // The blobs of a list up to the first one that nobody has.
  function Uploads(list: seq<Digest>, avail: set<Digest>): set<Digest> {
    if list == [] then {}
    else if list[0] == "" then Uploads(list[1..], avail)
    else if list[0] in avail then {list[0]} + Uploads(list[1..], avail)
    else {}
  }

  // Every blob a push of d sees to, including those of a child it then gives up on.
  ghost function Offered(w: World, rank: Digest -> nat, src: Repo, avail: set<Digest>, d: Digest): set<Digest>
    requires Acyclic(w, rank)
    decreases rank(d), 1
  {
    if d !in src.manifests then {}
    else Uploads(BlobList(w, d), avail) + OfferedAll(w, rank, src, avail, Children(w, d), rank(d))
  }

  ghost function OfferedAll(w: World, rank: Digest -> nat, src: Repo, avail: set<Digest>, kids: seq<Digest>, bound: nat): set<Digest>
    requires Acyclic(w, rank) && forall c :: c in kids ==> rank(c) < bound
    decreases bound, 0
  {
    set c, b | c in kids && b in Offered(w, rank, src, avail, c) :: b
  }

  // Every step advances; the bytes moved are the bytes gained unless something failed half way.
  ghost predicate Travelled(w: World, sc: Scope, a: Snapshot, was: seq<Snapshot>, b: Snapshot, now: seq<Snapshot>, r: Pushed, n: nat) {
    && was <= now && AllAdvance(w, sc, a, now, |was|) && Advances(w, sc, a, b)
    && n >= Total(w, In(b, sc.repo).blobs - In(a, sc.repo).blobs)
    && (!r.Failed? ==> n == Total(w, In(b, sc.repo).blobs - In(a, sc.repo).blobs))
  }

  lemma TravelledTransitive(w: World, sc: Scope, a: Snapshot, ta: seq<Snapshot>, b: Snapshot, tb: seq<Snapshot>,
                            c: Snapshot, tc: seq<Snapshot>, q: Pushed, r: Pushed, m: nat, n: nat)
    requires Travelled(w, sc, a, ta, b, tb, q, m) && Travelled(w, sc, b, tb, c, tc, r, n)
    ensures Travelled(w, sc, a, ta, c, tc, if q.Failed? then q else r, m + n)
  {
    AllAdvanceTransitive(w, sc, a, b, tb, tc, |ta|);
    AdvancesTransitive(w, sc, a, b, c);
    TotalGain(w, In(a, sc.repo).blobs, In(b, sc.repo).blobs, In(c, sc.repo).blobs);
  }

  lemma NotTravelled(w: World, sc: Scope, a: Snapshot, trail: seq<Snapshot>, r: Pushed)
    ensures Travelled(w, sc, a, trail, a, trail, r, 0)
  {
    TotalZero(w, In(a, sc.repo).blobs - In(a, sc.repo).blobs);
  }

  /******* Blobs *******/

  method PushBlob(reg: Registry, w: World, src: Repo, repo: RepoName, b: Digest, ghost sc: Scope) returns (r: Pushed, n: nat)
    requires sc.repo == repo && b != ""
    modifies reg
    ensures old(reg.requests) <= reg.requests && (r.Failed? ==> reg.LastFailed(old(reg.requests)))
    ensures Travelled(w, sc, old(reg.repos), old(reg.trail), reg.repos, reg.trail, r, n)
    ensures r.Done? ==> b in src.blobs + old(In(reg.repos, repo).blobs)
    ensures r.Done? ==> In(reg.repos, repo) == old(In(reg.repos, repo)).(blobs := old(In(reg.repos, repo)).blobs + {b})
    ensures !r.Done? ==> reg.repos == old(reg.repos)
    ensures r.NotFound? ==> b !in src.blobs && b !in old(In(reg.repos, repo).blobs)
  {
    ghost var before := In(reg.repos, repo).blobs;
    var refused := reg.Fails();
    if refused {
      NotTravelled(w, sc, reg.repos, reg.trail, Failed);
      return Failed, 0;
    }
    if b in In(reg.repos, repo).blobs {
      NotTravelled(w, sc, reg.repos, reg.trail, Done);
      assert before + {b} == before;
      return Done, 0;
    }
    if b !in src.blobs {
      NotTravelled(w, sc, reg.repos, reg.trail, NotFound);
      return NotFound, 0;
    }
    var ok := reg.WriteBlob(repo, b);
    if ok {
      TotalOne(w, before, b);
      return Done, w.size(b);
    }
    NotTravelled(w, sc, reg.repos, reg.trail, Failed);
    var read: int := *;
    return Failed, if read < 0 then 0 else read;
  }

  // Config first, then the layers.
  method PushBlobs(reg: Registry, w: World, src: Repo, repo: RepoName, d: Digest, ghost avail: set<Digest>, ghost sc: Scope)
    returns (r: Pushed, n: nat)
    requires w.doc(d).Image? && sc.repo == repo && avail == src.blobs + In(reg.repos, repo).blobs
    modifies reg
    ensures old(reg.requests) <= reg.requests && (r.Failed? ==> reg.LastFailed(old(reg.requests)))
    ensures Travelled(w, sc, old(reg.repos), old(reg.trail), reg.repos, reg.trail, r, n)
    ensures In(reg.repos, repo) == old(In(reg.repos, repo)).(blobs := In(reg.repos, repo).blobs)
    ensures src.blobs + In(reg.repos, repo).blobs == avail
    ensures !r.Failed? ==> In(reg.repos, repo).blobs == old(In(reg.repos, repo).blobs) + Uploads(BlobList(w, d), avail)
    ensures !r.Failed? ==> (r.Done? <==> Needs(w, d) <= avail)
    ensures r.Done? ==> Needs(w, d) <= In(reg.repos, repo).blobs
  {
    var list := [w.doc(d).config] + w.doc(d).layers;
    assert Needs(w, d) == Named(list);
    r, n := PushList(reg, w, src, repo, list, avail, sc);
  }

  method PushList(reg: Registry, w: World, src: Repo, repo: RepoName, list: seq<Digest>, ghost avail: set<Digest>, ghost sc: Scope)
    returns (r: Pushed, n: nat)
    requires sc.repo == repo && avail == src.blobs + In(reg.repos, repo).blobs
    modifies reg
    ensures old(reg.requests) <= reg.requests && (r.Failed? ==> reg.LastFailed(old(reg.requests)))
    ensures Travelled(w, sc, old(reg.repos), old(reg.trail), reg.repos, reg.trail, r, n)
    ensures In(reg.repos, repo) == old(In(reg.repos, repo)).(blobs := In(reg.repos, repo).blobs)
    ensures src.blobs + In(reg.repos, repo).blobs == avail
    ensures !r.Failed? ==> In(reg.repos, repo).blobs == old(In(reg.repos, repo).blobs) + Uploads(list, avail)
    ensures !r.Failed? ==> (r.Done? <==> Named(list) <= avail)
    ensures r.Done? ==> Named(list) <= In(reg.repos, repo).blobs
  {
    ghost var start := In(reg.repos, repo);
    n, r := 0, Done;
    NotTravelled(w, sc, reg.repos, reg.trail, Done);
    for i := 0 to |list|
      invariant Travelled(w, sc, old(reg.repos), old(reg.trail), reg.repos, reg.trail, Done, n)
      invariant In(reg.repos, repo) == start.(blobs := start.blobs + Named(list[..i])) && old(reg.requests) <= reg.requests
      invariant Named(list[..i]) <= avail == src.blobs + In(reg.repos, repo).blobs
    {
      NamedStep(list, i, avail);
      if list[i] == "" {
        continue;
      }
      ghost var mid, trail, was := reg.repos, reg.trail, n;
      var k;
      r, k := PushBlob(reg, w, src, repo, list[i], sc);
      n := n + k;
      TravelledTransitive(w, sc, old(reg.repos), old(reg.trail), mid, trail, reg.repos, reg.trail, Done, r, was, k);
      if !r.Done? {
        return;
      }
      assert start.blobs + Named(list[..i]) + {list[i]} == start.blobs + Named(list[..i + 1]);
    }
    assert list[..|list|] == list;
    NamedAll(list, avail);
    r := Done;
  }

  function Named(list: seq<Digest>): set<Digest> {
    set b | b in list && b != ""
  }

  lemma {:induction false} UploadsPrefix(list: seq<Digest>, i: nat, avail: set<Digest>)
    requires i <= |list| && Named(list[..i]) <= avail
    ensures Uploads(list, avail) == Named(list[..i]) + Uploads(list[i..], avail)
  {
    if i > 0 {
      assert list[..i] == [list[0]] + list[1..][..i - 1];
      assert list[1..][i - 1..] == list[i..];
      UploadsPrefix(list[1..], i - 1, avail);
    } else {
      assert list[0..] == list;
    }
  }

  lemma NamedStep(list: seq<Digest>, i: nat, avail: set<Digest>)
    requires i < |list| && Named(list[..i]) <= avail
    ensures Named(list[..i + 1]) == Named(list[..i]) + if list[i] == "" then {} else {list[i]}
    ensures list[i] != "" ==> list[i] in Named(list)
    ensures list[i] != "" && list[i] !in avail ==> Uploads(list, avail) == Named(list[..i])
  {
    assert list[..i + 1] == list[..i] + [list[i]];
    UploadsPrefix(list, i, avail);
  }

  lemma NamedAll(list: seq<Digest>, avail: set<Digest>)
    requires Named(list) <= avail
    ensures Uploads(list, avail) == Named(list)
  {
    assert list[..|list|] == list;
    UploadsPrefix(list, |list|, avail);
  }

  /******* Manifests *******/

  // What a push leaves: the manifests it could deliver below d, and every blob it saw to.
  ghost predicate Delivered(w: World, rank: Digest -> nat, src: Repo, avail: set<Digest>, a: Repo, b: Repo, d: Digest, r: Pushed)
    requires Acyclic(w, rank)
  {
    && b.blobs == a.blobs + Offered(w, rank, src, avail, d)
    && b.manifests == a.manifests + if r.Done? then Walk(w, rank, d, Deliverable(w, src, avail)) else {}
  }

  // Blobs before their manifest, children before their index.
  method PushManifest(reg: Registry, w: World, ghost rank: Digest -> nat, src: Repo, repo: RepoName, d: Digest, tag: Tag,
                      ghost avail: set<Digest>, ghost sc: Scope)
    returns (r: Pushed, n: nat)
    requires Acyclic(w, rank) && avail == src.blobs + In(reg.repos, repo).blobs
    requires sc.repo == repo && (tag != "" ==> sc.tag == tag && sc.target == d)
    requires sc.along == Deliverable(w, src, avail)
    modifies reg
    ensures old(reg.requests) <= reg.requests && (r.Failed? ==> reg.LastFailed(old(reg.requests)))
    ensures Travelled(w, sc, old(reg.repos), old(reg.trail), reg.repos, reg.trail, r, n)
    ensures src.blobs + In(reg.repos, repo).blobs == avail
    ensures !r.Failed? ==> (r.Done? <==> Pushable(w, src, avail, d))
    ensures !r.Failed? ==> Delivered(w, rank, src, avail, old(In(reg.repos, repo)), In(reg.repos, repo), d, r)
    ensures In(reg.repos, repo).tags ==
            if r.Done? && tag != "" then old(In(reg.repos, repo).tags)[tag := d] else old(In(reg.repos, repo).tags)
    decreases rank(d), 2
  {
    if d !in src.manifests {
      NotTravelled(w, sc, reg.repos, reg.trail, NotFound);
      return NotFound, 0;
    }
    r, n := PushBelow(reg, w, rank, src, repo, d, avail, sc);
    if !r.Done? {
      return;
    }
    ghost var mid, trail := reg.repos, reg.trail;
    var ok := reg.PutManifest(repo, d, tag, w, sc);
    r := if ok then Done else Failed;
    TotalZero(w, In(reg.repos, repo).blobs - In(mid, repo).blobs);
    TravelledTransitive(w, sc, old(reg.repos), old(reg.trail), mid, trail, reg.repos, reg.trail, Done, r, n, 0);
  }

  // What has to be there before the manifest: its children or its blobs.
  method PushBelow(reg: Registry, w: World, ghost rank: Digest -> nat, src: Repo, repo: RepoName, d: Digest,
                   ghost avail: set<Digest>, ghost sc: Scope)
    returns (r: Pushed, n: nat)
    requires Acyclic(w, rank) && avail == src.blobs + In(reg.repos, repo).blobs && d in src.manifests
    requires sc.repo == repo && sc.along == Deliverable(w, src, avail)
    modifies reg
    ensures old(reg.requests) <= reg.requests && (r.Failed? ==> reg.LastFailed(old(reg.requests)))
    ensures Travelled(w, sc, old(reg.repos), old(reg.trail), reg.repos, reg.trail, r, n)
    ensures src.blobs + In(reg.repos, repo).blobs == avail
    ensures !r.Failed? ==> (r.Done? <==> Pushable(w, src, avail, d))
    ensures r.Done? ==> Ready(w, rank, src, avail, old(In(reg.repos, repo)), In(reg.repos, repo), d)
    ensures r.NotFound? ==> Delivered(w, rank, src, avail, old(In(reg.repos, repo)), In(reg.repos, repo), d, r)
    ensures In(reg.repos, repo).tags == old(In(reg.repos, repo).tags)
    decreases rank(d), 1
  {
    if w.doc(d).Index? {
      r, n := PushIndexChildren(reg, w, rank, src, repo, d, avail, sc);
    } else {
      r, n := PushBlobs(reg, w, src, repo, d, avail, sc);
      NothingBelow(w, rank, src, avail, d);
    }
    if r.Done? {
      ReadyToPut(w, rank, src, avail, old(In(reg.repos, repo)), In(reg.repos, repo), d);
    }
  }

  // The manifest itself is all that is missing.
  ghost predicate Ready(w: World, rank: Digest -> nat, src: Repo, avail: set<Digest>, a: Repo, b: Repo, d: Digest)
    requires Acyclic(w, rank)
  {
    && b.blobs == a.blobs + Offered(w, rank, src, avail, d)
    && b.manifests + {d} == a.manifests + Walk(w, rank, d, Deliverable(w, src, avail))
    && (forall c :: c in Children(w, d) && c in Deliverable(w, src, avail) ==> c in b.manifests)
    && Needs(w, d) <= b.blobs
  }

  // With its blobs or its deliverable children there, the manifest may follow, and completes the push.
  lemma ReadyToPut(w: World, rank: Digest -> nat, src: Repo, avail: set<Digest>, a: Repo, b: Repo, d: Digest)
    requires Acyclic(w, rank) && d in src.manifests
    requires w.doc(d).Index? ==> DeliveredAll(w, rank, src, avail, a, b, Children(w, d), rank(d))
    requires w.doc(d).Image? ==> b.blobs == a.blobs + Uploads(BlobList(w, d), avail) && b.manifests == a.manifests
    requires Needs(w, d) <= b.blobs
    ensures Ready(w, rank, src, avail, a, b, d)
  {
    if w.doc(d).Image? {
      NothingBelow(w, rank, src, avail, d);
    } else {
      DeliverableBelow(w, rank, d, Deliverable(w, src, avail));
      assert BlobList(w, d) == [];
      assert Uploads([], avail) == {};
    }
  }

  lemma NothingBelow(w: World, rank: Digest -> nat, src: Repo, avail: set<Digest>, d: Digest)
    requires Acyclic(w, rank) && w.doc(d).Image?
    ensures OfferedAll(w, rank, src, avail, Children(w, d), rank(d)) == {}
    ensures Walk(w, rank, d, Deliverable(w, src, avail)) == {d}
  {
  }

  lemma DeliverableBelow(w: World, rank: Digest -> nat, d: Digest, go: iset<Digest>)
    requires Acyclic(w, rank)
    ensures forall c :: c in Children(w, d) && c in go ==> c in Walks(w, rank, Children(w, d), go, rank(d))
  {
    forall c | c in Children(w, d) && c in go ensures c in Walks(w, rank, Children(w, d), go, rank(d)) {
      assert c in Walk(w, rank, c, go);
    }
  }

  // Every child the store can deliver; the others are skipped.
  method PushIndexChildren(reg: Registry, w: World, ghost rank: Digest -> nat, src: Repo, repo: RepoName, d: Digest,
                           ghost avail: set<Digest>, ghost sc: Scope)
    returns (r: Pushed, n: nat)
    requires Acyclic(w, rank) && avail == src.blobs + In(reg.repos, repo).blobs && w.doc(d).Index?
    requires sc.repo == repo && sc.along == Deliverable(w, src, avail)
    modifies reg
    ensures old(reg.requests) <= reg.requests && (r.Failed? ==> reg.LastFailed(old(reg.requests)))
    ensures Travelled(w, sc, old(reg.repos), old(reg.trail), reg.repos, reg.trail, r, n)
    ensures src.blobs + In(reg.repos, repo).blobs == avail
    ensures r.Done? || r.Failed?
    ensures r.Done? ==> DeliveredAll(w, rank, src, avail, old(In(reg.repos, repo)), In(reg.repos, repo), Children(w, d), rank(d))
    ensures In(reg.repos, repo).tags == old(In(reg.repos, repo).tags)
    decreases rank(d), 0
  {
    var kids := w.doc(d).children;
    ghost var start := In(reg.repos, repo);
    n, r := 0, Done;
    NotTravelled(w, sc, reg.repos, reg.trail, Done);
    for i := 0 to |kids|
      invariant Travelled(w, sc, old(reg.repos), old(reg.trail), reg.repos, reg.trail, Done, n)
      invariant src.blobs + In(reg.repos, repo).blobs == avail
      invariant DeliveredAll(w, rank, src, avail, start, In(reg.repos, repo), kids[..i], rank(d))
      invariant In(reg.repos, repo).tags == old(In(reg.repos, repo).tags) && old(reg.requests) <= reg.requests
    {
      ghost var mid, trail, was := reg.repos, reg.trail, n;
      var k;
      r, k := PushManifest(reg, w, rank, src, repo, kids[i], "", avail, sc);
      n := n + k;
      TravelledTransitive(w, sc, old(reg.repos), old(reg.trail), mid, trail, reg.repos, reg.trail, Done, r, was, k);
      if r.Failed? {
        return;
      }
      DeliveredStep(w, rank, src, avail, start, In(mid, repo), In(reg.repos, repo), kids, i, rank(d), r);
    }
    r := Done;
    assert kids[..|kids|] == kids;
  }

  ghost predicate DeliveredAll(w: World, rank: Digest -> nat, src: Repo, avail: set<Digest>, a: Repo, b: Repo, kids: seq<Digest>, bound: nat)
    requires Acyclic(w, rank) && forall c :: c in kids ==> rank(c) < bound
  {
    && b.blobs == a.blobs + OfferedAll(w, rank, src, avail, kids, bound)
    && b.manifests == a.manifests + Walks(w, rank, kids, Deliverable(w, src, avail), bound)
  }

  lemma DeliveredStep(w: World, rank: Digest -> nat, src: Repo, avail: set<Digest>, a: Repo, b: Repo, c: Repo,
                      kids: seq<Digest>, i: nat, bound: nat, r: Pushed)
    requires Acyclic(w, rank) && (forall c :: c in kids ==> rank(c) < bound) && i < |kids|
    requires DeliveredAll(w, rank, src, avail, a, b, kids[..i], bound)
    requires Delivered(w, rank, src, avail, b, c, kids[i], r) && (r.Done? <==> Pushable(w, src, avail, kids[i]))
    ensures DeliveredAll(w, rank, src, avail, a, c, kids[..i + 1], bound)
  {
    WalksStep(w, rank, kids, i, Deliverable(w, src, avail), bound);
    OfferedStep(w, rank, src, avail, kids, i, bound);
  }

  lemma OfferedStep(w: World, rank: Digest -> nat, src: Repo, avail: set<Digest>, kids: seq<Digest>, i: nat, bound: nat)
    requires Acyclic(w, rank) && (forall c :: c in kids ==> rank(c) < bound) && i < |kids|
    ensures OfferedAll(w, rank, src, avail, kids[..i + 1], bound)
            == OfferedAll(w, rank, src, avail, kids[..i], bound) + Offered(w, rank, src, avail, kids[i])
  {
    assert kids[..i + 1] == kids[..i] + [kids[i]];
  }

  /******* A push as its callers see it *******/

  datatype Ref = ByDigest(d: Digest) | ByTag(t: Tag)

  function Resolve(src: Repo, ref: Ref): Digest {
    match ref
    case ByDigest(d) => d
    case ByTag(t) => if t in src.tags then src.tags[t] else ""
  }

  ghost function PushScope(w: World, src: Repo, dst: Repo, repo: RepoName, d: Digest, tag: Tag): Scope {
    Scope(repo, tag, d, Deliverable(w, src, src.blobs + dst.blobs), {})
  }

  // At every step each manifest the push stored has its blobs, each index it stored has every child
  // the store could deliver, and no tag but the one asked for has moved.
  method PushRef(reg: Registry, w: World, ghost rank: Digest -> nat, src: Repo, repo: RepoName, ref: Ref, tag: Tag)
    returns (r: Pushed, n: nat)
    requires Acyclic(w, rank)
    modifies reg
    ensures old(reg.requests) <= reg.requests && (r.Failed? ==> reg.LastFailed(old(reg.requests)))
    ensures Travelled(w, PushScope(w, src, old(In(reg.repos, repo)), repo, Resolve(src, ref), tag),
                      old(reg.repos), old(reg.trail), reg.repos, reg.trail, r, n)
    ensures var d, avail := Resolve(src, ref), src.blobs + old(In(reg.repos, repo)).blobs;
            !r.Failed? && (ref.ByTag? ==> ref.t in src.tags) ==>
              && (r.Done? <==> Pushable(w, src, avail, d))
              && Delivered(w, rank, src, avail, old(In(reg.repos, repo)), In(reg.repos, repo), d, r)
    ensures ref.ByTag? && ref.t !in src.tags ==> !r.Done? && reg.repos == old(reg.repos)
    ensures In(reg.repos, repo).tags ==
            if r.Done? && tag != "" then old(In(reg.repos, repo).tags)[tag := Resolve(src, ref)] else old(In(reg.repos, repo).tags)
  {
    ghost var avail := src.blobs + In(reg.repos, repo).blobs;
    ghost var sc := PushScope(w, src, In(reg.repos, repo), repo, Resolve(src, ref), tag);
    if ref.ByTag? && ref.t !in src.tags {
      NotTravelled(w, sc, reg.repos, reg.trail, NotFound);
      return NotFound, 0;
    }
    r, n := PushManifest(reg, w, rank, src, repo, Resolve(src, ref), tag, avail, sc);
  }

  // The closure of d as far as the store holds it.
  ghost function HeldClosure(w: World, rank: Digest -> nat, src: Repo, d: Digest): set<Digest>
    requires Acyclic(w, rank)
  {
    Walk(w, rank, d, iset x: Digest | x in src.manifests)
  }

  // A successful push brings everything the store holds below d exactly when the blobs of all of
  // it are in the store or were at the destination.
  lemma PushBringsHeldClosureIff(w: World, rank: Digest -> nat, src: Repo, a: Repo, b: Repo, d: Digest)
    requires Acyclic(w, rank) && BlobClosed(w, a) && Pushable(w, src, src.blobs + a.blobs, d)
    requires Delivered(w, rank, src, src.blobs + a.blobs, a, b, d, Done)
    ensures HeldClosure(w, rank, src, d) <= b.manifests
            <==> forall m :: m in HeldClosure(w, rank, src, d) ==> Needs(w, m) <= src.blobs + a.blobs
  {
    var avail, held := src.blobs + a.blobs, iset x: Digest | x in src.manifests;
    var go, all := Deliverable(w, src, avail), HeldClosure(w, rank, src, d);
    WalkStays(w, rank, d, go);
    WalkStays(w, rank, d, held);
    if forall m :: m in all ==> Needs(w, m) <= avail {
      DeliverableCovers(w, rank, d, held, go);
    }
  }

  lemma DeliverableCovers(w: World, rank: Digest -> nat, d: Digest, held: iset<Digest>, go: iset<Digest>)
    requires Acyclic(w, rank) && forall x :: x in Walk(w, rank, d, held) && x in held ==> x in go
    ensures Walk(w, rank, d, held) <= Walk(w, rank, d, go)
  {
    var all, brought := Walk(w, rank, d, held), Walk(w, rank, d, go);
    WalkClosed(w, rank, d, held);
    WalkClosed(w, rank, d, go);
    var s := set x | x in all && x in brought;
    assert ClosedUnder(w, s, held);
    WalkLeast(w, rank, d, held, s);
  }

  // In particular from a store that is itself closed, which is what the copies into it keep.
  lemma ClosedSourceDelivers(w: World, rank: Digest -> nat, src: Repo, a: Repo, b: Repo, d: Digest)
    requires Acyclic(w, rank) && BlobClosed(w, a) && BlobClosed(w, src) && d in src.manifests
    requires Delivered(w, rank, src, src.blobs + a.blobs, a, b, d, Done)
    ensures HeldClosure(w, rank, src, d) <= b.manifests
    ensures forall m :: m in HeldClosure(w, rank, src, d) ==> Needs(w, m) <= src.blobs
  {
    WalkStays(w, rank, d, iset x: Digest | x in src.manifests);
    PushBringsHeldClosureIff(w, rank, src, a, b, d);
  }

  lemma {:induction false} UploadsAvailable(list: seq<Digest>, avail: set<Digest>)
    ensures Uploads(list, avail) <= avail
  {
    if list != [] {
      UploadsAvailable(list[1..], avail);
    }
  }

  lemma {:induction false} OfferedAvailable(w: World, rank: Digest -> nat, src: Repo, avail: set<Digest>, d: Digest)
    requires Acyclic(w, rank)
    ensures Offered(w, rank, src, avail, d) <= avail
    decreases rank(d)
  {
    UploadsAvailable(BlobList(w, d), avail);
    forall c | c in Children(w, d) ensures Offered(w, rank, src, avail, c) <= avail {
      OfferedAvailable(w, rank, src, avail, c);
    }
  }

  // Repeating a push moves not one byte and ends in the same state.
  lemma RepeatMovesNothing(w: World, rank: Digest -> nat, src: Repo, a: Repo, b: Repo, c: Repo, d: Digest, r: Pushed)
    requires Acyclic(w, rank)
    requires Delivered(w, rank, src, src.blobs + a.blobs, a, b, d, r)
    requires Delivered(w, rank, src, src.blobs + b.blobs, b, c, d, r)
    ensures Total(w, c.blobs - b.blobs) == 0
    ensures c.manifests == b.manifests && c.blobs == b.blobs
  {
    OfferedAvailable(w, rank, src, src.blobs + a.blobs, d);
    assert src.blobs + b.blobs == src.blobs + a.blobs;
    assert c.blobs == b.blobs;
    TotalZero(w, c.blobs - b.blobs);
  }

  /******* A held child that is not delivered *******/

  function LostBlobDoc(d: Digest): Manifest {
    if d == "top" then Index(["kid"]) else Image("blob", [])
  }

  function LostBlobRank(d: Digest): nat {
    if d == "top" then 1 else 0
  }

  // The store holds an index and its child, but not the child's blob. Nothing fails, the push is done,
  // and the index is at the destination without a child that the store holds.
  method HeldChildSkipped() returns (r: Pushed, dst: Registry, src: Repo)
    ensures r.Done? && "kid" in src.manifests && "kid" in LostBlobDoc("top").children
    ensures "top" in In(dst.repos, "").manifests && "kid" !in In(dst.repos, "").manifests
  {
    src := Repo({}, {"top", "kid"}, map[]);
    var w := World(LostBlobDoc, _ => 0);
    dst := new Registry(map[], _ => false, _ => false, _ => false);
    assert |"top"| == |"kid"| == 3 && "top"[0] != "kid"[0];
    assert Needs(w, "top") == {} && "blob" in Needs(w, "kid");
    assert !Pushable(w, src, {}, "kid") && Pushable(w, src, {}, "top");
    WalkStays(w, LostBlobRank, "top", Deliverable(w, src, {}));
    var n;
    assert src.blobs + In(dst.repos, "").blobs == {};
    r, n := PushRef(dst, w, LostBlobRank, src, "", ByDigest("top"), "");
    assert "top" in Walk(w, LostBlobRank, "top", Deliverable(w, src, {}));
  }
}
