/**
 Promotion: one recipe's ingredients, then the recipe itself, from the store into the next zone.

 Which requests fail - and with them verdicts and the destination's acceptance - is an input of each
 registry. Names are resolved by parameters: where an ingredient's bytes sit in the store, which destination repository
 its reference relocates to, and which one is a recipe's cookbook.
 */
module Promote {
  import opened Wrappers
  import opened Registry
  import opened Recipes
  import opened Graph
  import opened Push
  import opened SignatureTags
  import Transfer

  datatype Names = Names(
    stored: (string, string) -> Option<RepoName>,   // reference and ingredient name, "" for the recipe
    relocated: string -> Option<RepoName>,
    cookbook: string -> Option<RepoName>)

  // The document layer of a recipe artifact; None for a manifest that is not one.
  type Layout = Digest -> Option<Digest>

  function TagAt(s: Snapshot, repo: RepoName, t: Tag): Option<Digest> {
    if t in In(s, repo).tags then Some(In(s, repo).tags[t]) else None
  }

  /******* What a run may do to a registry *******/

  type Places = iset<(RepoName, Tag)>

  // Nothing is lost, closedness is kept, and only tags in `allowed` moved.
  ghost predicate Changes(w: World, allowed: Places, a: Snapshot, b: Snapshot) {
    && (forall r :: In(a, r).manifests <= In(b, r).manifests && In(a, r).blobs <= In(b, r).blobs)
    && (forall r :: BlobClosed(w, In(a, r)) ==> BlobClosed(w, In(b, r)))
    && (forall r, t :: (r, t) !in allowed ==> TagAt(b, r, t) == TagAt(a, r, t))
  }

  ghost predicate AllClosed(w: World, s: Snapshot) {
    forall r :: BlobClosed(w, In(s, r))
  }

  lemma ClosedStays(w: World, allowed: Places, a: Snapshot, b: Snapshot)
    requires Changes(w, allowed, a, b) && AllClosed(w, a)
    ensures AllClosed(w, b)
  {
  }

  // The same of every state on the way.
  ghost predicate Run(w: World, allowed: Places, a: Snapshot, was: seq<Snapshot>, b: Snapshot, now: seq<Snapshot>) {
    && was <= now && Changes(w, allowed, a, b)
    && forall k :: |was| <= k < |now| ==> Changes(w, allowed, a, now[k])
  }

  lemma ChangesTransitive(w: World, allowed: Places, a: Snapshot, b: Snapshot, c: Snapshot)
    requires Changes(w, allowed, a, b) && Changes(w, allowed, b, c)
    ensures Changes(w, allowed, a, c)
  {
  }

  lemma RunTransitive(w: World, allowed: Places, a: Snapshot, ta: seq<Snapshot>, b: Snapshot, tb: seq<Snapshot>, c: Snapshot, tc: seq<Snapshot>)
    requires Run(w, allowed, a, ta, b, tb) && Run(w, allowed, b, tb, c, tc)
    ensures Run(w, allowed, a, ta, c, tc)
  {
    ChangesTransitive(w, allowed, a, b, c);
    forall k | |ta| <= k < |tc| ensures Changes(w, allowed, a, tc[k]) {
      if k < |tb| {
        assert tc[k] == tb[k];
      } else {
        ChangesTransitive(w, allowed, a, b, tc[k]);
      }
    }
  }

  lemma AdvanceIsChange(w: World, sc: Scope, allowed: Places, a: Snapshot, b: Snapshot)
    requires Advances(w, sc, a, b) && (sc.tag != "" ==> (sc.repo, sc.tag) in allowed)
    ensures Changes(w, allowed, a, b)
  {
    forall r ensures In(a, r).manifests <= In(b, r).manifests && In(a, r).blobs <= In(b, r).blobs
             ensures BlobClosed(w, In(a, r)) ==> BlobClosed(w, In(b, r))
    {
      if r == sc.repo && BlobClosed(w, In(a, r)) {
        ExtendsKeepsClosed(w, sc, In(a, r), In(b, r));
      }
    }
  }

  lemma AdvancesAreRun(w: World, sc: Scope, allowed: Places, a: Snapshot, was: seq<Snapshot>, b: Snapshot, now: seq<Snapshot>)
    requires was <= now && AllAdvance(w, sc, a, now, |was|) && Advances(w, sc, a, b)
    requires sc.tag != "" ==> (sc.repo, sc.tag) in allowed
    ensures Run(w, allowed, a, was, b, now)
  {
    AdvanceIsChange(w, sc, allowed, a, b);
    forall k | |was| <= k < |now| ensures Changes(w, allowed, a, now[k]) {
      AdvanceIsChange(w, sc, allowed, a, now[k]);
    }
  }

  /******* Pushing *******/

  ghost function OnePlace(r: RepoName, t: Tag): Places {
    iset{(r, t)}
  }

  ghost function SignaturePlaces(r: RepoName, d: Digest): Places {
    iset t: Tag | t in SignatureTagsOf(d) :: (r, t)
  }

  // The source holds the manifest with all its blobs.
  predicate InStore(w: World, src: Repo, d: Digest) {
    Pushable(w, src, src.blobs, d)
  }

  // What the source can deliver below a manifest out of its own.
  ghost function Below(w: World, rank: Digest -> nat, src: Repo, d: Digest): set<Digest>
    requires Acyclic(w, rank)
  {
    Walk(w, rank, d, Deliverable(w, src, src.blobs))
  }

  lemma WalkMore(w: World, rank: Digest -> nat, d: Digest, go: iset<Digest>, go': iset<Digest>)
    requires Acyclic(w, rank) && go <= go'
    ensures Walk(w, rank, d, go) <= Walk(w, rank, d, go')
  {
    WalkClosed(w, rank, d, go');
    WalkLeast(w, rank, d, go, Walk(w, rank, d, go'));
  }

  method PushInto(zone: Registry, w: World, ghost rank: Digest -> nat, src: Repo, repo: RepoName, ref: Ref, tag: Tag, ghost allowed: Places)
    returns (r: Pushed, n: nat)
    requires Acyclic(w, rank) && tag != "" && (repo, tag) in allowed
    modifies zone
    ensures Run(w, allowed, old(zone.repos), old(zone.trail), zone.repos, zone.trail)
    ensures r.Done? ==> Resolve(src, ref) in In(zone.repos, repo).manifests && TagAt(zone.repos, repo, tag) == Some(Resolve(src, ref))
    ensures r.Done? && ref.ByTag? ==> ref.t in src.tags
    ensures old(zone.requests) <= zone.requests && (r.Failed? ==> zone.LastFailed(old(zone.requests)))
    ensures InStore(w, src, Resolve(src, ref)) && (ref.ByTag? ==> ref.t in src.tags) ==> r.Done? || r.Failed?
    ensures r.Done? ==> Below(w, rank, src, Resolve(src, ref)) <= In(zone.repos, repo).manifests
    ensures TagAt(zone.repos, repo, tag) == if r.Done? then Some(Resolve(src, ref)) else old(TagAt(zone.repos, repo, tag))
    ensures forall k :: |old(zone.trail)| <= k < |zone.trail| ==>
              TagAt(zone.trail[k], repo, tag) in {old(TagAt(zone.repos, repo, tag)), Some(Resolve(src, ref))}
    ensures TagAt(zone.repos, repo, tag) in {old(TagAt(zone.repos, repo, tag)), Some(Resolve(src, ref))}
  {
    ghost var sc := PushScope(w, src, In(zone.repos, repo), repo, Resolve(src, ref), tag);
    WalkMore(w, rank, Resolve(src, ref), Deliverable(w, src, src.blobs), Deliverable(w, src, src.blobs + In(zone.repos, repo).blobs));
    r, n := PushRef(zone, w, rank, src, repo, ref, tag);
    AdvancesAreRun(w, sc, allowed, old(zone.repos), old(zone.trail), zone.repos, zone.trail);
    forall k | |old(zone.trail)| <= k < |zone.trail|
      ensures TagAt(zone.trail[k], repo, tag) in {old(TagAt(zone.repos, repo, tag)), Some(Resolve(src, ref))}
    {
      assert Advances(w, sc, old(zone.repos), zone.trail[k]);
    }
  }

  // How many of the requests from number m to n failed.
  function Failures(fails: nat -> bool, m: nat, n: nat): nat
    decreases n
  {
    if n <= m then 0 else Failures(fails, m, n - 1) + if fails(n - 1) then 1 else 0
  }

  lemma {:induction false} MoreFailures(fails: nat -> bool, k: nat, m: nat, n: nat)
    requires k <= m <= n
    ensures Failures(fails, k, m) + Failures(fails, m, n) == Failures(fails, k, n)
    decreases n
  {
    if m < n {
      MoreFailures(fails, k, m, n - 1);
    }
  }

  // One of these requests failed for good.
  ghost predicate FailedForGood(reg: Registry, m: nat, n: nat) {
    exists k: nat :: m <= k < n && reg.fails(k) && reg.final(k)
  }

  // The push, again and again while it fails and repeating may mend it, up to the budget: it is given
  // up only after more failures than that.
  method PushWithRetries(zone: Registry, w: World, ghost rank: Digest -> nat, src: Repo, repo: RepoName, d: Digest, tag: Tag, retries: int)
    returns (r: Pushed, n: nat)
    requires Acyclic(w, rank) && tag != ""
    modifies zone
    ensures Run(w, OnePlace(repo, tag), old(zone.repos), old(zone.trail), zone.repos, zone.trail)
    ensures r.Done? ==> Holds(w, rank, src, d, repo, tag, zone.repos)
    ensures old(zone.requests) <= zone.requests && (r.Failed? ==> zone.LastFailed(old(zone.requests)))
    ensures InStore(w, src, d) ==> r.Done? || r.Failed?
    ensures InStore(w, src, d) && !r.Done? ==>
              Failures(zone.fails, old(zone.requests), zone.requests) > retries || FailedForGood(zone, old(zone.requests), zone.requests)
  {
    ghost var start := zone.requests;
    r, n := PushOnce(zone, w, rank, src, repo, d, tag);
    var attempt := 0;
    while !r.Done? && attempt < retries
      invariant Run(w, OnePlace(repo, tag), old(zone.repos), old(zone.trail), zone.repos, zone.trail)
      invariant start <= zone.requests && 0 <= attempt && (r.Failed? ==> zone.LastFailed(start))
      invariant r.Done? ==> Holds(w, rank, src, d, repo, tag, zone.repos)
      invariant InStore(w, src, d) && !r.Done? ==> r.Failed? && Failures(zone.fails, start, zone.requests) > attempt
    {
      if r.Failed? && zone.final(zone.requests - 1) {
        return;
      }
      ghost var mid, trail, m := zone.repos, zone.trail, zone.requests;
      var k;
      r, k := PushOnce(zone, w, rank, src, repo, d, tag);
      RunTransitive(w, OnePlace(repo, tag), old(zone.repos), old(zone.trail), mid, trail, zone.repos, zone.trail);
      MoreFailures(zone.fails, start, m, zone.requests);
      n := n + k;
      attempt := attempt + 1;
    }
  }

  // The tag carries d, which is held with everything the source can deliver below it.
  ghost predicate Holds(w: World, rank: Digest -> nat, src: Repo, d: Digest, repo: RepoName, tag: Tag, s: Snapshot)
    requires Acyclic(w, rank)
  {
    d in In(s, repo).manifests && TagAt(s, repo, tag) == Some(d) && Below(w, rank, src, d) <= In(s, repo).manifests
  }

  method PushOnce(zone: Registry, w: World, ghost rank: Digest -> nat, src: Repo, repo: RepoName, d: Digest, tag: Tag)
    returns (r: Pushed, n: nat)
    requires Acyclic(w, rank) && tag != ""
    modifies zone
    ensures Run(w, OnePlace(repo, tag), old(zone.repos), old(zone.trail), zone.repos, zone.trail)
    ensures r.Done? ==> Holds(w, rank, src, d, repo, tag, zone.repos)
    ensures old(zone.requests) <= zone.requests && (r.Failed? ==> zone.LastFailed(old(zone.requests)))
    ensures r.Failed? ==> Failures(zone.fails, old(zone.requests), zone.requests) > 0
    ensures InStore(w, src, d) && !r.Done? ==> r.Failed?
  {
    r, n := PushInto(zone, w, rank, src, repo, ByDigest(d), tag, OnePlace(repo, tag));
  }

  // The signatures the source has, with all their blobs, are held under their tags; a tag it does not
  // have reads what it read, unless it is the content's own.
  ghost predicate SignaturesTravel(w: World, src: Repo, repo: RepoName, d: Digest, own: Tag, a: Snapshot, b: Snapshot) {
    forall t :: t in SignatureTagsOf(d) && t != "" ==> SignatureTravels(w, src, repo, t, own, a, b)
  }

  ghost predicate SignatureTravels(w: World, src: Repo, repo: RepoName, t: Tag, own: Tag, a: Snapshot, b: Snapshot) {
    if t in src.tags then
      InStore(w, src, src.tags[t]) ==> TagAt(b, repo, t) == Some(src.tags[t]) && src.tags[t] in In(b, repo).manifests
    else
      t != own ==> TagAt(b, repo, t) == TagAt(a, repo, t)
  }

  // Both signature layouts travel with their subject; what fails or is absent does not matter.
  method PushSignatures(zone: Registry, w: World, ghost rank: Digest -> nat, src: Repo, repo: RepoName, d: Digest)
    returns (n: nat)
    requires Acyclic(w, rank)
    modifies zone
    ensures Run(w, SignaturePlaces(repo, d), old(zone.repos), old(zone.trail), zone.repos, zone.trail)
    ensures zone.Calm() ==> SignaturesTravel(w, src, repo, d, "", old(zone.repos), zone.repos)
    ensures old(zone.requests) <= zone.requests
  {
    n := PushSignature(zone, w, rank, src, repo, d, SignatureTag(d));
    if FallbackTag(d) != "" {
      ghost var mid, trail := zone.repos, zone.trail;
      var k := PushSignature(zone, w, rank, src, repo, d, FallbackTag(d));
      RunTransitive(w, SignaturePlaces(repo, d), old(zone.repos), old(zone.trail), mid, trail, zone.repos, zone.trail);
      n := n + k;
    }
  }

  method PushSignature(zone: Registry, w: World, ghost rank: Digest -> nat, src: Repo, repo: RepoName, ghost d: Digest, t: Tag)
    returns (n: nat)
    requires Acyclic(w, rank) && t in SignatureTagsOf(d) && t != ""
    modifies zone
    ensures Run(w, SignaturePlaces(repo, d), old(zone.repos), old(zone.trail), zone.repos, zone.trail)
    ensures zone.Calm() ==> SignatureTravels(w, src, repo, t, "", old(zone.repos), zone.repos)
    ensures forall t' :: t' != t ==> TagAt(zone.repos, repo, t') == old(TagAt(zone.repos, repo, t'))
    ensures old(zone.requests) <= zone.requests
  {
    var r;
    r, n := PushInto(zone, w, rank, src, repo, ByTag(t), t, OnePlace(repo, t));
    RunWidens(w, OnePlace(repo, t), SignaturePlaces(repo, d), old(zone.repos), old(zone.trail), zone.repos, zone.trail);
  }

  /******* One ingredient *******/

  // The version tag an ingredient is promoted to.
  predicate AddressedTo(names: Names, ing: Ingredient, r: RepoName, t: Tag) {
    names.relocated(ing.ref) == Some(r) && t == ing.version
  }

  // A tag in its repository that is spelled like one of its signatures.
  predicate SpelledBy(names: Names, ing: Ingredient, r: RepoName, t: Tag) {
    names.relocated(ing.ref) == Some(r) && t in SignatureTagsOf(ing.digest)
  }

  // Where an ingredient's promotion may move tags at the destination.
  predicate IngredientPlace(names: Names, ing: Ingredient, r: RepoName, t: Tag) {
    AddressedTo(names, ing, r, t) || SpelledBy(names, ing, r, t)
  }

  ghost function PlacesOfIngredient(names: Names, ing: Ingredient): Places {
    iset r: RepoName, t: Tag | IngredientPlace(names, ing, r, t) :: (r, t)
  }

  predicate Held(names: Names, ing: Ingredient, s: Snapshot) {
    var r := names.relocated(ing.ref);
    r.Some? && ing.digest in In(s, r.value).manifests
  }

  // What a promoted ingredient does to tags: its version tag carries its digest, all others but
  // those spelled like its signatures read what they read.
  ghost predicate TagsAfter(names: Names, ing: Ingredient, a: Snapshot, b: Snapshot) {
    forall r, t :: !SpelledBy(names, ing, r, t) ==>
      TagAt(b, r, t) == if AddressedTo(names, ing, r, t) then Some(ing.digest) else TagAt(a, r, t)
  }

  // Everything a promotion needs of one ingredient is there.
  predicate Sendable(w: World, names: Names, ing: Ingredient, store: Snapshot) {
    var local := names.stored(ing.ref, ing.name);
    local.Some? && names.relocated(ing.ref).Some? && InStore(w, In(store, local.value), ing.digest)
  }

  predicate UpToDate(names: Names, ing: Ingredient, s: Snapshot) {
    names.relocated(ing.ref).Some? && TagAt(s, names.relocated(ing.ref).value, ing.version) == Some(ing.digest)
  }

  // What crossing means: everything the store can deliver below the ingredient is held, and - if nothing
  // fails - its signatures are.
  ghost predicate Carried(w: World, rank: Digest -> nat, names: Names, ing: Ingredient, calm: bool, store: Snapshot, a: Snapshot, b: Snapshot)
    requires Acyclic(w, rank)
  {
    var local, target := names.stored(ing.ref, ing.name), names.relocated(ing.ref);
    && local.Some? && target.Some?
    && Below(w, rank, In(store, local.value), ing.digest) <= In(b, target.value).manifests
    && (calm ==> SignaturesTravel(w, In(store, local.value), target.value, ing.digest, ing.version, a, b))
  }

  // An ingredient counts as promoted only when the destination holds its pinned manifest, under its
  // version tag; what was not up to date is carried over with its signatures.
  method PromoteIngredient(store: Registry, zone: Registry, w: World, ghost rank: Digest -> nat, names: Names, ing: Ingredient,
                           upstream: bool, retries: int)
    returns (ok: bool, moved: nat)
    requires Acyclic(w, rank) && store != zone && ing.version != ""
    requires AllClosed(w, zone.repos)
    modifies store, zone
    ensures Run(w, PlacesOfIngredient(names, ing), old(zone.repos), old(zone.trail), zone.repos, zone.trail)
    ensures ok ==> Held(names, ing, zone.repos) && TagsAfter(names, ing, old(zone.repos), zone.repos)
    ensures zone.Calm() && Sendable(w, names, ing, old(store.repos)) ==> ok
    ensures UpToDate(names, ing, old(zone.repos)) ==> zone.repos == old(zone.repos)
    ensures ok && !UpToDate(names, ing, old(zone.repos)) ==> Carried(w, rank, names, ing, zone.Calm(), store.repos, old(zone.repos), zone.repos)
    ensures Run(w, StorePlace(names, ing), old(store.repos), old(store.trail), store.repos, store.trail)
    ensures !upstream || zone.Calm() ==> store.repos == old(store.repos)
  {
    moved := 0;
    var local, target := names.stored(ing.ref, ing.name), names.relocated(ing.ref);
    var refused := zone.Fails();
    if local.None? || target.None? || refused {
      return false, 0;
    }
    var repo := target.value;
    var here := TagAt(zone.repos, repo, ing.version);
    if here == Some(ing.digest) {
      assert BlobClosed(w, In(zone.repos, repo));
      assert ing.version in In(zone.repos, repo).tags;
      return true, 0;
    }
    var r;
    r, moved := PushVersion(store, zone, w, rank, names, ing, local.value, repo, upstream, retries);
    if !r.Done? {
      PlacesWithin(w, names, ing, repo, old(zone.repos), old(zone.trail), zone.repos, zone.trail);
      return false, moved;
    }
    ghost var mid, trail := zone.repos, zone.trail;
    PlacesWithin(w, names, ing, repo, old(zone.repos), old(zone.trail), mid, trail);
    var k := PushSignatures(zone, w, rank, In(store.repos, local.value), repo, ing.digest);
    CarriedOver(w, rank, names, ing, zone.Calm(), store.repos, old(zone.repos), mid, zone.repos);
    SignaturesWithin(w, names, ing, repo, mid, trail, zone.repos, zone.trail);
    RunTransitive(w, PlacesOfIngredient(names, ing), old(zone.repos), old(zone.trail), mid, trail, zone.repos, zone.trail);
    return true, moved + k;
  }

  lemma CarriedOver(w: World, rank: Digest -> nat, names: Names, ing: Ingredient, calm: bool, store: Snapshot, a: Snapshot, b: Snapshot, c: Snapshot)
    requires Acyclic(w, rank) && names.stored(ing.ref, ing.name).Some? && names.relocated(ing.ref).Some?
    requires var repo, src := names.relocated(ing.ref).value, In(store, names.stored(ing.ref, ing.name).value);
             && Changes(w, OnePlace(repo, ing.version), a, b) && Below(w, rank, src, ing.digest) <= In(b, repo).manifests
             && Changes(w, SignaturePlaces(repo, ing.digest), b, c)
             && (calm ==> SignaturesTravel(w, src, repo, ing.digest, "", b, c))
    ensures Carried(w, rank, names, ing, calm, store, a, c)
  {
    var repo, src := names.relocated(ing.ref).value, In(store, names.stored(ing.ref, ing.name).value);
    if calm {
      forall t | t in SignatureTagsOf(ing.digest) && t != "" ensures SignatureTravels(w, src, repo, t, ing.version, a, c) {
        assert SignatureTravels(w, src, repo, t, "", b, c);
        if t != ing.version {
          assert (repo, t) !in OnePlace(repo, ing.version);
        }
      }
    }
  }

  lemma PlacesWithin(w: World, names: Names, ing: Ingredient, repo: RepoName, a: Snapshot, was: seq<Snapshot>, b: Snapshot, now: seq<Snapshot>)
    requires names.relocated(ing.ref) == Some(repo) && Run(w, OnePlace(repo, ing.version), a, was, b, now)
    ensures Run(w, PlacesOfIngredient(names, ing), a, was, b, now)
  {
    assert IngredientPlace(names, ing, repo, ing.version);
    RunWidens(w, OnePlace(repo, ing.version), PlacesOfIngredient(names, ing), a, was, b, now);
  }

  lemma SignaturesWithin(w: World, names: Names, ing: Ingredient, repo: RepoName, a: Snapshot, was: seq<Snapshot>, b: Snapshot, now: seq<Snapshot>)
    requires names.relocated(ing.ref) == Some(repo) && Run(w, SignaturePlaces(repo, ing.digest), a, was, b, now)
    ensures Run(w, PlacesOfIngredient(names, ing), a, was, b, now)
  {
    assert forall t :: t in SignatureTagsOf(ing.digest) ==> IngredientPlace(names, ing, repo, t);
    RunWidens(w, SignaturePlaces(repo, ing.digest), PlacesOfIngredient(names, ing), a, was, b, now);
  }

  // The push of one ingredient, widened and repeated when the destination refuses a sparse index.
  method PushVersion(store: Registry, zone: Registry, w: World, ghost rank: Digest -> nat, names: Names, ing: Ingredient,
                     local: RepoName, repo: RepoName, upstream: bool, retries: int)
    returns (r: Pushed, moved: nat)
    requires Acyclic(w, rank) && store != zone && ing.version != "" && names.stored(ing.ref, ing.name) == Some(local)
    modifies store, zone
    ensures Run(w, OnePlace(repo, ing.version), old(zone.repos), old(zone.trail), zone.repos, zone.trail)
    ensures r.Done? ==> Holds(w, rank, In(store.repos, local), ing.digest, repo, ing.version, zone.repos)
    ensures zone.Calm() && InStore(w, old(In(store.repos, local)), ing.digest) ==> r.Done?
    ensures r.Failed? ==> zone.LastFailed(old(zone.requests))
    ensures r.Failed? && upstream ==>
              || !zone.sparse(zone.requests - 1) || store.LastFailed(old(store.requests))
              || Completed(w, rank, ing.digest, old(In(store.repos, local)), In(store.repos, local))
    ensures Run(w, StorePlace(names, ing), old(store.repos), old(store.trail), store.repos, store.trail)
    ensures !upstream || zone.Calm() ==> store.repos == old(store.repos)
  {
    r, moved := PushWithRetries(zone, w, rank, In(store.repos, local), repo, ing.digest, ing.version, retries);
    if r.Failed? && upstream && zone.sparse(zone.requests - 1) {
      var ok := CompleteIndex(store, w, rank, names, local, ing);
      if !ok {
        return;
      }
      ghost var mid, trail := zone.repos, zone.trail;
      var k;
      r, k := PushWithRetries(zone, w, rank, In(store.repos, local), repo, ing.digest, ing.version, retries);
      RunTransitive(w, OnePlace(repo, ing.version), old(zone.repos), old(zone.trail), mid, trail, zone.repos, zone.trail);
      moved := moved + k;
    }
  }

  // The one tag an ingredient's promotion may rewrite in the store.
  ghost function StorePlace(names: Names, ing: Ingredient): Places {
    iset r: RepoName, t: Tag | names.stored(ing.ref, ing.name) == Some(r) && t == ing.version :: (r, t)
  }

  // The store has every child of the index - unless it is none, or part of it cannot be copied.
  ghost predicate Completed(w: World, rank: Digest -> nat, d: Digest, a: Repo, b: Repo)
    requires Acyclic(w, rank)
  {
    || w.doc(d).Image? || Transfer.AllHeld(Children(w, d), None, b.manifests)
    || !Transfer.AllCopyable(w, Transfer.Brought(w, rank, Children(w, d), None, a.manifests))
  }

  // Fetch every platform a selection left out of the store's copy.
  method CompleteIndex(store: Registry, w: World, ghost rank: Digest -> nat, names: Names, local: RepoName, ing: Ingredient)
    returns (ok: bool)
    requires Acyclic(w, rank) && names.stored(ing.ref, ing.name) == Some(local)
    modifies store
    ensures Run(w, StorePlace(names, ing), old(store.repos), old(store.trail), store.repos, store.trail)
    ensures store.LastFailed(old(store.requests)) || Completed(w, rank, ing.digest, old(In(store.repos, local)), In(store.repos, local))
    ensures ok && w.doc(ing.digest).Index? ==> Transfer.AllHeld(Children(w, ing.digest), None, In(store.repos, local).manifests)
  {
    var unreached := store.Fails();
    if unreached || w.doc(ing.digest).Image? {
      return !unreached;
    }
    var n;
    ok, n := Transfer.CopyIndex(store, w, rank, local, ing.version, ing.digest, None);
    ghost var sc := Scope(local, ing.version, ing.digest, Everything, {});
    AdvancesAreRun(w, sc, StorePlace(names, ing), old(store.repos), old(store.trail), store.repos, store.trail);
  }

  /******* The recipe itself *******/

  predicate HeldUpTo(names: Names, f: Recipe, n: nat, s: Snapshot)
    requires n <= |f.ingredients|
  {
    forall i :: 0 <= i < n ==> Held(names, f.ingredients[i], s)
  }

  predicate AllHeld(names: Names, f: Recipe, s: Snapshot) {
    HeldUpTo(names, f, |f.ingredients|, s)
  }

  lemma HeldStays(w: World, allowed: Places, names: Names, f: Recipe, n: nat, a: Snapshot, b: Snapshot)
    requires n <= |f.ingredients| && Changes(w, allowed, a, b) && HeldUpTo(names, f, n, a)
    ensures HeldUpTo(names, f, n, b)
  {
  }

  lemma AllHeldStays(w: World, allowed: Places, names: Names, f: Recipe, a: Snapshot, b: Snapshot)
    requires Changes(w, allowed, a, b) && AllHeld(names, f, a)
    ensures AllHeld(names, f, b)
  {
    HeldStays(w, allowed, names, f, |f.ingredients|, a, b);
  }

  lemma RunWidens(w: World, p: Places, q: Places, a: Snapshot, was: seq<Snapshot>, b: Snapshot, now: seq<Snapshot>)
    requires Run(w, p, a, was, b, now) && p <= q
    ensures Run(w, q, a, was, b, now)
  {
  }

  // The same document under the same tag, or the same artifact.
  predicate Identical(layout: Layout, x: Digest, y: Digest) {
    x == y || (layout(x).Some? && layout(x) == layout(y))
  }

  // What the cookbook tag may read in state s of a run that began in a: what it read, or - only if
  // it did not exist - the recipe artifact under the store's tag.
  predicate TagKept(layout: Layout, recipe: Option<Digest>, before: Option<Digest>, now: Option<Digest>) {
    now == before || (before.None? && now == recipe && now.Some? && layout(now.value).Some?)
  }

  ghost predicate KeptAt(names: Names, f: Recipe, layout: Layout, recipe: Option<Digest>, side: Places, a: Snapshot, s: Snapshot) {
    forall cook :: names.cookbook(f.name) == Some(cook) && (cook, f.version) !in side ==>
      TagKept(layout, recipe, TagAt(a, cook, f.version), TagAt(s, cook, f.version))
  }

  ghost predicate KeptAll(names: Names, f: Recipe, layout: Layout, recipe: Option<Digest>, side: Places, a: Snapshot, trail: seq<Snapshot>, n: nat) {
    forall k :: n <= k < |trail| ==> KeptAt(names, f, layout, recipe, side, a, trail[k])
  }

  // Publish the recipe, unless its tag is taken - by the same document, which is as good, or by
  // anything else, which stands.
  method PropagateRecipe(store: Registry, zone: Registry, w: World, ghost rank: Digest -> nat, names: Names, f: Recipe,
                         local: RepoName, layout: Layout)
    returns (landed: bool)
    requires Acyclic(w, rank) && store != zone && f.version != ""
    modifies zone
    ensures var recipe := TagAt(store.repos, local, f.version);
            var side := RecipeSide(names, f, recipe);
            && Run(w, side + CookbookPlace(names, f), old(zone.repos), old(zone.trail), zone.repos, zone.trail)
            && KeptAt(names, f, layout, recipe, side, old(zone.repos), zone.repos)
            && KeptAll(names, f, layout, recipe, side, old(zone.repos), zone.trail, |old(zone.trail)|)
    ensures landed ==> names.cookbook(f.name).Some? && TagAt(store.repos, local, f.version).Some?
    ensures landed ==> Landed(names, f, layout, TagAt(store.repos, local, f.version), old(zone.repos), zone.repos)
    ensures zone.Calm() && CanLand(w, names, f, layout, In(store.repos, local), old(zone.repos)) ==> landed
    ensures landed && TagAt(old(zone.repos), names.cookbook(f.name).value, f.version).None? ==>
              RecipeCarried(w, rank, In(store.repos, local), names.cookbook(f.name).value, f.version,
                            TagAt(store.repos, local, f.version).value, zone.Calm(), old(zone.repos), zone.repos)
  {
    var cookbook, recipe := names.cookbook(f.name), TagAt(store.repos, local, f.version);
    var refused := zone.Fails();
    if cookbook.None? || refused || recipe.None? || layout(recipe.value).None? {
      return false;
    }
    var cook, d := cookbook.value, recipe.value;
    var existing := TagAt(zone.repos, cook, f.version);
    var unreachable := zone.Fails();
    if unreachable {
      return false;
    }
    if existing.Some? {
      var unreadable := zone.Fails();
      if existing.value != d && unreadable {
        return false;
      }
      landed := existing.value == d || (layout(existing.value).Some? && layout(existing.value) == layout(d));
      return;
    }
    landed := Publish(zone, w, rank, In(store.repos, local), names, f, cook, layout);
  }

  // What a delivered recipe leaves under its cookbook tag: what was there, if anything was, and
  // then the same document; otherwise the recipe.
  ghost predicate Landed(names: Names, f: Recipe, layout: Layout, recipe: Option<Digest>, a: Snapshot, b: Snapshot) {
    var cook := names.cookbook(f.name);
    cook.Some? && recipe.Some? && (f.version !in SignatureTagsOf(recipe.value) ==>
      var before, now := TagAt(a, cook.value, f.version), TagAt(b, cook.value, f.version);
      if before.Some? then now == before && Identical(layout, before.value, recipe.value) else now == recipe)
  }

  // The recipe artifact is in the store, and its tag is free or carries the same document.
  ghost predicate CanLand(w: World, names: Names, f: Recipe, layout: Layout, src: Repo, zone: Snapshot) {
    var cook := names.cookbook(f.name);
    && cook.Some? && f.version in src.tags
    && var d := src.tags[f.version];
       && layout(d).Some? && InStore(w, src, d)
       && var existing := TagAt(zone, cook.value, f.version);
          existing.None? || Identical(layout, existing.value, d)
  }

  // The recipe is there with everything below it, and - if nothing fails - with its signatures.
  ghost predicate RecipeCarried(w: World, rank: Digest -> nat, src: Repo, cook: RepoName, version: Tag, d: Digest, calm: bool, a: Snapshot, b: Snapshot)
    requires Acyclic(w, rank)
  {
    Below(w, rank, src, d) <= In(b, cook).manifests && (calm ==> SignaturesTravel(w, src, cook, d, version, a, b))
  }

  lemma RecipeCarriedOver(w: World, rank: Digest -> nat, src: Repo, cook: RepoName, version: Tag, d: Digest, calm: bool, a: Snapshot, b: Snapshot, c: Snapshot)
    requires Acyclic(w, rank) && Below(w, rank, src, d) <= In(b, cook).manifests <= In(c, cook).manifests
    requires forall t :: t in SignatureTagsOf(d) && t != version ==> TagAt(b, cook, t) == TagAt(a, cook, t)
    requires calm ==> SignaturesTravel(w, src, cook, d, "", b, c)
    ensures RecipeCarried(w, rank, src, cook, version, d, calm, a, c)
  {
    if calm {
      forall t | t in SignatureTagsOf(d) && t != "" ensures SignatureTravels(w, src, cook, t, version, a, c) {
        assert SignatureTravels(w, src, cook, t, "", b, c);
      }
    }
  }

  // The recipe under its free tag, then its signatures.
  method Publish(zone: Registry, w: World, ghost rank: Digest -> nat, src: Repo, ghost names: Names, f: Recipe, cook: RepoName,
                 ghost layout: Layout)
    returns (landed: bool)
    requires Acyclic(w, rank) && f.version != "" && f.version in src.tags && layout(src.tags[f.version]).Some?
    requires names.cookbook(f.name) == Some(cook) && TagAt(zone.repos, cook, f.version).None?
    modifies zone
    ensures var recipe := Some(src.tags[f.version]);
            var side := RecipeSide(names, f, recipe);
            && Run(w, side + CookbookPlace(names, f), old(zone.repos), old(zone.trail), zone.repos, zone.trail)
            && KeptAt(names, f, layout, recipe, side, old(zone.repos), zone.repos)
            && KeptAll(names, f, layout, recipe, side, old(zone.repos), zone.trail, |old(zone.trail)|)
    ensures landed && f.version !in SignatureTagsOf(src.tags[f.version]) ==>
              TagAt(zone.repos, cook, f.version) == Some(src.tags[f.version])
    ensures zone.Calm() && InStore(w, src, src.tags[f.version]) ==> landed
    ensures landed ==> RecipeCarried(w, rank, src, cook, f.version, src.tags[f.version], zone.Calm(), old(zone.repos), zone.repos)
  {
    ghost var d := src.tags[f.version];
    ghost var side := RecipeSide(names, f, Some(d));
    ghost var allowed := side + CookbookPlace(names, f);
    var r, n := PushInto(zone, w, rank, src, cook, ByTag(f.version), f.version, OnePlace(cook, f.version));
    ghost var mid, trail := zone.repos, zone.trail;
    RunWidens(w, OnePlace(cook, f.version), allowed, old(zone.repos), old(zone.trail), mid, trail);
    if !r.Done? {
      return false;
    }
    n := PushSignatures(zone, w, rank, src, cook, src.tags[f.version]);
    assert SignaturePlaces(cook, d) == side;
    RecipeCarriedOver(w, rank, src, cook, f.version, d, zone.Calm(), old(zone.repos), mid, zone.repos);
    RunWidens(w, side, allowed, mid, trail, zone.repos, zone.trail);
    RunTransitive(w, allowed, old(zone.repos), old(zone.trail), mid, trail, zone.repos, zone.trail);
    forall k | |old(zone.trail)| <= k < |zone.trail|
      ensures KeptAt(names, f, layout, Some(d), side, old(zone.repos), zone.trail[k])
    {
      if k < |trail| {
        assert zone.trail[k] == trail[k];
      } else {
        assert Changes(w, side, mid, zone.trail[k]);
      }
    }
    landed := true;
  }

  // Where publishing the recipe may move tags besides its own: its signatures.
  ghost predicate RecipePlace(names: Names, f: Recipe, recipe: Option<Digest>, r: RepoName, t: Tag) {
    names.cookbook(f.name) == Some(r) && recipe.Some? && t in SignatureTagsOf(recipe.value)
  }

  ghost function RecipeSide(names: Names, f: Recipe, recipe: Option<Digest>): Places {
    iset r: RepoName, t: Tag | RecipePlace(names, f, recipe, r, t) :: (r, t)
  }

  ghost function CookbookPlace(names: Names, f: Recipe): Places {
    iset r: RepoName, t: Tag | names.cookbook(f.name) == Some(r) && t == f.version :: (r, t)
  }

  // Every tag a recipe's promotion may move, its own excepted.
  ghost function SidePlaces(names: Names, f: Recipe, recipe: Option<Digest>): Places {
    iset r: RepoName, t: Tag | (exists i :: 0 <= i < |f.ingredients| && IngredientPlace(names, f.ingredients[i], r, t))
                               || RecipePlace(names, f, recipe, r, t) :: (r, t)
  }

  ghost predicate MovedTag(names: Names, f: Recipe, side: Places, a: Snapshot, s: Snapshot) {
    var cook := names.cookbook(f.name);
    cook.Some? && (cook.value, f.version) !in side && TagAt(s, cook.value, f.version) != TagAt(a, cook.value, f.version)
  }

  // In every state of the run: nothing is lost, only announced tags moved, and if the recipe's
  // cookbook tag is not one of the side places, it moved only from absent to the recipe, with
  // every pinned ingredient held.
  ghost predicate Promoted(w: World, names: Names, f: Recipe, layout: Layout, recipe: Option<Digest>, a: Snapshot, s: Snapshot) {
    && Changes(w, SidePlaces(names, f, recipe) + CookbookPlace(names, f), a, s)
    && KeptAt(names, f, layout, recipe, SidePlaces(names, f, recipe), a, s)
    && (MovedTag(names, f, SidePlaces(names, f, recipe), a, s) ==> AllHeld(names, f, s))
  }

  lemma IngredientPlaces(names: Names, f: Recipe, i: nat)
    requires i < |f.ingredients|
    ensures PlacesOfIngredient(names, f.ingredients[i]) <= SidePlaces(names, f, None)
  {
  }

  /******* What the ingredients do to tags *******/

  // The digest of the last ingredient addressed to a place, if there is one.
  function LastAddressed(names: Names, ings: seq<Ingredient>, r: RepoName, t: Tag): Option<Digest> {
    if ings == [] then None
    else
      var last := ings[|ings| - 1];
      if AddressedTo(names, last, r, t) then Some(last.digest) else LastAddressed(names, ings[..|ings| - 1], r, t)
  }

  predicate SpelledByAny(names: Names, ings: seq<Ingredient>, r: RepoName, t: Tag) {
    exists i :: 0 <= i < |ings| && SpelledBy(names, ings[i], r, t)
  }

  function Expected(last: Option<Digest>, before: Option<Digest>): Option<Digest> {
    if last.Some? then last else before
  }

  // Every tag reads the digest of the last ingredient addressed to it, or what it read before;
  // only tags spelled like a signature are exempt.
  ghost predicate TagsFollow(names: Names, ings: seq<Ingredient>, a: Snapshot, b: Snapshot) {
    forall r, t :: !SpelledByAny(names, ings, r, t) ==>
      TagAt(b, r, t) == Expected(LastAddressed(names, ings, r, t), TagAt(a, r, t))
  }

  lemma TagsFollowMore(names: Names, ings: seq<Ingredient>, i: nat, a: Snapshot, b: Snapshot, c: Snapshot)
    requires i < |ings| && TagsFollow(names, ings[..i], a, b) && TagsAfter(names, ings[i], b, c)
    ensures TagsFollow(names, ings[..i + 1], a, c)
  {
    var some, more := ings[..i], ings[..i + 1];
    assert more[..i] == some && more[i] == ings[i];
    forall r, t | !SpelledByAny(names, more, r, t)
      ensures TagAt(c, r, t) == Expected(LastAddressed(names, more, r, t), TagAt(a, r, t))
    {
      assert !SpelledBy(names, more[i], r, t);
      forall j | 0 <= j < i ensures !SpelledBy(names, some[j], r, t) {
        assert more[j] == some[j];
      }
    }
  }

  // Of the first n ingredients, each that can be sent is held, whatever becomes of the others.
  ghost predicate SendableHeld(w: World, names: Names, ings: seq<Ingredient>, n: nat, store: Snapshot, zone: Snapshot)
    requires n <= |ings|
  {
    forall i :: 0 <= i < n && Sendable(w, names, ings[i], store) ==> Held(names, ings[i], zone)
  }

  lemma SendableHeldMore(w: World, names: Names, ings: seq<Ingredient>, i: nat, store: Snapshot, ok: bool, b: Snapshot, c: Snapshot)
    requires i < |ings| && SendableHeld(w, names, ings, i, store, b) && Changes(w, PlacesOfIngredient(names, ings[i]), b, c)
    requires ok ==> Held(names, ings[i], c)
    requires Sendable(w, names, ings[i], store) ==> ok
    ensures SendableHeld(w, names, ings, i + 1, store, c)
  {
  }

  ghost predicate AllSendable(w: World, names: Names, ings: seq<Ingredient>, store: Snapshot) {
    forall i :: 0 <= i < |ings| ==> Sendable(w, names, ings[i], store)
  }

  // Nothing else the recipe pins, or may write besides, touches a place of the i-th ingredient.
  ghost predicate OwnPlaces(names: Names, ings: seq<Ingredient>, others: Places, i: nat)
    requires i < |ings|
  {
    forall r, t :: IngredientPlace(names, ings[i], r, t) ==>
      (r, t) !in others && forall j :: 0 <= j < |ings| && j != i ==> !IngredientPlace(names, ings[j], r, t)
  }

  // Each of the first n ingredients that was not up to date and has its places to itself was carried over.
  ghost predicate AllCarried(w: World, rank: Digest -> nat, names: Names, ings: seq<Ingredient>, others: Places, n: nat, calm: bool, store: Snapshot, a: Snapshot, b: Snapshot)
    requires Acyclic(w, rank) && n <= |ings|
  {
    forall i :: 0 <= i < n && OwnPlaces(names, ings, others, i) && !UpToDate(names, ings[i], a) ==>
      Carried(w, rank, names, ings[i], calm, store, a, b)
  }

  // The first n ingredients touched their own places only.
  ghost predicate OthersStand(names: Names, ings: seq<Ingredient>, n: nat, a: Snapshot, b: Snapshot)
    requires n <= |ings|
  {
    forall r, t :: (forall j :: 0 <= j < n ==> !IngredientPlace(names, ings[j], r, t)) ==> TagAt(b, r, t) == TagAt(a, r, t)
  }

  lemma CarriedStays(w: World, rank: Digest -> nat, names: Names, ing: Ingredient, calm: bool, store: Snapshot, places: Places, a: Snapshot, b: Snapshot, c: Snapshot)
    requires Acyclic(w, rank) && Carried(w, rank, names, ing, calm, store, a, b) && Changes(w, places, b, c)
    requires forall r, t :: IngredientPlace(names, ing, r, t) ==> (r, t) !in places
    ensures Carried(w, rank, names, ing, calm, store, a, c)
  {
    var repo, src := names.relocated(ing.ref).value, In(store, names.stored(ing.ref, ing.name).value);
    if calm {
      forall t | t in SignatureTagsOf(ing.digest) && t != "" ensures SignatureTravels(w, src, repo, t, ing.version, a, c) {
        assert SignatureTravels(w, src, repo, t, ing.version, a, b) && IngredientPlace(names, ing, repo, t);
      }
    }
  }

  // Whatever happened elsewhere before does not matter.
  lemma CarriedFrom(w: World, rank: Digest -> nat, names: Names, ing: Ingredient, calm: bool, store: Snapshot, a: Snapshot, b: Snapshot, c: Snapshot)
    requires Acyclic(w, rank) && Carried(w, rank, names, ing, calm, store, b, c)
    requires forall r, t :: IngredientPlace(names, ing, r, t) ==> TagAt(b, r, t) == TagAt(a, r, t)
    ensures Carried(w, rank, names, ing, calm, store, a, c)
  {
    var repo, src := names.relocated(ing.ref).value, In(store, names.stored(ing.ref, ing.name).value);
    if calm {
      forall t | t in SignatureTagsOf(ing.digest) && t != "" ensures SignatureTravels(w, src, repo, t, ing.version, a, c) {
        assert SignatureTravels(w, src, repo, t, ing.version, b, c) && IngredientPlace(names, ing, repo, t);
      }
    }
  }

  lemma OneMoreCarried(w: World, rank: Digest -> nat, names: Names, ings: seq<Ingredient>, others: Places, i: nat, calm: bool, store: Snapshot,
                       a: Snapshot, b: Snapshot, c: Snapshot)
    requires Acyclic(w, rank) && i < |ings| && OthersStand(names, ings, i, a, b) && Changes(w, PlacesOfIngredient(names, ings[i]), b, c)
    requires AllCarried(w, rank, names, ings, others, i, calm, store, a, b)
    requires !UpToDate(names, ings[i], b) ==> Carried(w, rank, names, ings[i], calm, store, b, c)
    ensures AllCarried(w, rank, names, ings, others, i + 1, calm, store, a, c)
  {
    forall k | 0 <= k <= i && OwnPlaces(names, ings, others, k) && !UpToDate(names, ings[k], a)
      ensures Carried(w, rank, names, ings[k], calm, store, a, c)
    {
      if k < i {
        CarriedStays(w, rank, names, ings[k], calm, store, PlacesOfIngredient(names, ings[i]), a, b, c);
      } else {
        UntouchedBefore(names, ings, others, i, a, b);
        CarriedFrom(w, rank, names, ings[i], calm, store, a, b, c);
      }
    }
  }

  lemma UntouchedBefore(names: Names, ings: seq<Ingredient>, others: Places, i: nat, a: Snapshot, b: Snapshot)
    requires i < |ings| && OthersStand(names, ings, i, a, b) && OwnPlaces(names, ings, others, i)
    ensures forall r, t :: IngredientPlace(names, ings[i], r, t) ==> TagAt(b, r, t) == TagAt(a, r, t)
    ensures UpToDate(names, ings[i], b) <==> UpToDate(names, ings[i], a)
  {
    if names.relocated(ings[i].ref).Some? {
      assert IngredientPlace(names, ings[i], names.relocated(ings[i].ref).value, ings[i].version);
    }
  }

  lemma OthersStandMore(w: World, names: Names, ings: seq<Ingredient>, i: nat, a: Snapshot, b: Snapshot, c: Snapshot)
    requires i < |ings| && OthersStand(names, ings, i, a, b) && Changes(w, PlacesOfIngredient(names, ings[i]), b, c)
    ensures OthersStand(names, ings, i + 1, a, c)
  {
    forall r, t | forall j :: 0 <= j < i + 1 ==> !IngredientPlace(names, ings[j], r, t) ensures TagAt(c, r, t) == TagAt(a, r, t) {
      assert !IngredientPlace(names, ings[i], r, t);
    }
  }

  // Every ingredient, each on its own; the outcome is whether all of them are held.
  method PromoteIngredients(store: Registry, zone: Registry, w: World, ghost rank: Digest -> nat, names: Names, f: Recipe,
                            upstream: bool, retries: int, ghost others: Places)
    returns (all: bool)
    requires Acyclic(w, rank) && store != zone
    requires forall i :: 0 <= i < |f.ingredients| ==> f.ingredients[i].version != ""
    requires AllClosed(w, zone.repos)
    modifies store, zone
    ensures Run(w, SidePlaces(names, f, None), old(zone.repos), old(zone.trail), zone.repos, zone.trail)
    ensures all ==> AllHeld(names, f, zone.repos) && TagsFollow(names, f.ingredients, old(zone.repos), zone.repos)
    ensures zone.Calm() && AllSendable(w, names, f.ingredients, old(store.repos)) ==> all
    ensures !upstream || zone.Calm() ==> store.repos == old(store.repos)
    ensures OthersStand(names, f.ingredients, |f.ingredients|, old(zone.repos), zone.repos)
    ensures zone.Calm() ==> SendableHeld(w, names, f.ingredients, |f.ingredients|, old(store.repos), zone.repos)
    ensures all && (!upstream || zone.Calm()) ==>
              AllCarried(w, rank, names, f.ingredients, others, |f.ingredients|, zone.Calm(), store.repos, old(zone.repos), zone.repos)
  {
    ghost var allowed, calm, fixed := SidePlaces(names, f, None), zone.Calm(), !upstream || zone.Calm();
    all := true;
    for i := 0 to |f.ingredients|
      invariant Run(w, allowed, old(zone.repos), old(zone.trail), zone.repos, zone.trail)
      invariant fixed ==> store.repos == old(store.repos)
      invariant AllClosed(w, zone.repos)
      invariant Crossing(w, rank, names, f, others, i, all, calm, fixed, old(store.repos), old(zone.repos), zone.repos)
    {
      ghost var mid, trail := zone.repos, zone.trail;
      var ok := PromoteNth(store, zone, w, rank, names, f, i, upstream, retries);
      OneMoreIngredient(w, names, f, i, old(zone.repos), old(zone.trail), mid, trail, zone.repos, zone.trail);
      OneMoreCrossed(w, rank, names, f, others, i, all, ok, calm, fixed, old(store.repos), old(zone.repos), mid, zone.repos);
      all := all && ok;
    }
    assert f.ingredients[..|f.ingredients|] == f.ingredients;
  }

  // After the first n ingredients: what their verdict means, and what holds of each on its own.
  ghost predicate Crossing(w: World, rank: Digest -> nat, names: Names, f: Recipe, others: Places, n: nat, all: bool, calm: bool, fixed: bool,
                           store: Snapshot, a: Snapshot, b: Snapshot)
    requires Acyclic(w, rank) && n <= |f.ingredients|
  {
    && (all ==> HeldUpTo(names, f, n, b) && TagsFollow(names, f.ingredients[..n], a, b))
    && OthersStand(names, f.ingredients, n, a, b)
    && (calm ==> SendableHeld(w, names, f.ingredients, n, store, b))
    && (calm && AllSendable(w, names, f.ingredients, store) ==> all)
    && (all && fixed ==> AllCarried(w, rank, names, f.ingredients, others, n, calm, store, a, b))
  }

  // What one ingredient's turn does.
  ghost predicate Turn(w: World, rank: Digest -> nat, names: Names, ing: Ingredient, ok: bool, calm: bool, fixed: bool, store: Snapshot, b: Snapshot, c: Snapshot)
    requires Acyclic(w, rank)
  {
    && Changes(w, PlacesOfIngredient(names, ing), b, c)
    && (ok ==> Held(names, ing, c) && TagsAfter(names, ing, b, c))
    && (calm && Sendable(w, names, ing, store) ==> ok)
    && (ok && fixed && !UpToDate(names, ing, b) ==> Carried(w, rank, names, ing, calm, store, b, c))
  }

  method PromoteNth(store: Registry, zone: Registry, w: World, ghost rank: Digest -> nat, names: Names, f: Recipe, i: nat,
                    upstream: bool, retries: int)
    returns (ok: bool)
    requires Acyclic(w, rank) && store != zone && i < |f.ingredients| && f.ingredients[i].version != ""
    requires AllClosed(w, zone.repos)
    modifies store, zone
    ensures Run(w, PlacesOfIngredient(names, f.ingredients[i]), old(zone.repos), old(zone.trail), zone.repos, zone.trail)
    ensures !upstream || zone.Calm() ==> store.repos == old(store.repos)
    ensures Turn(w, rank, names, f.ingredients[i], ok, zone.Calm(), !upstream || zone.Calm(), old(store.repos), old(zone.repos), zone.repos)
  {
    var n;
    ok, n := PromoteIngredient(store, zone, w, rank, names, f.ingredients[i], upstream, retries);
  }

  lemma OneMoreCrossed(w: World, rank: Digest -> nat, names: Names, f: Recipe, others: Places, i: nat, all: bool, ok: bool, calm: bool, fixed: bool,
                       store: Snapshot, a: Snapshot, b: Snapshot, c: Snapshot)
    requires Acyclic(w, rank) && i < |f.ingredients| && Crossing(w, rank, names, f, others, i, all, calm, fixed, store, a, b)
    requires Turn(w, rank, names, f.ingredients[i], ok, calm, fixed, store, b, c)
    ensures Crossing(w, rank, names, f, others, i + 1, all && ok, calm, fixed, store, a, c)
  {
    OthersStandMore(w, names, f.ingredients, i, a, b, c);
    if calm {
      SendableHeldMore(w, names, f.ingredients, i, store, ok, b, c);
    }
    if all && ok {
      HeldStays(w, PlacesOfIngredient(names, f.ingredients[i]), names, f, i, b, c);
      TagsFollowMore(names, f.ingredients, i, a, b, c);
    }
    if all && ok && fixed {
      OneMoreCarried(w, rank, names, f.ingredients, others, i, calm, store, a, b, c);
    }
  }

  lemma OneMoreIngredient(w: World, names: Names, f: Recipe, i: nat, a: Snapshot, ta: seq<Snapshot>,
                          b: Snapshot, tb: seq<Snapshot>, c: Snapshot, tc: seq<Snapshot>)
    requires i < |f.ingredients| && AllClosed(w, b)
    requires Run(w, SidePlaces(names, f, None), a, ta, b, tb)
    requires Run(w, PlacesOfIngredient(names, f.ingredients[i]), b, tb, c, tc)
    ensures Run(w, SidePlaces(names, f, None), a, ta, c, tc) && AllClosed(w, c)
  {
    var p, q := PlacesOfIngredient(names, f.ingredients[i]), SidePlaces(names, f, None);
    IngredientPlaces(names, f, i);
    RunWidens(w, p, q, b, tb, c, tc);
    RunTransitive(w, q, a, ta, b, tb, c, tc);
    ClosedStays(w, q, b, c);
  }

  /******* A whole promotion *******/

  // Where the recipe goes is spelled like a signature of its own or of one of its ingredients.
  ghost predicate SpelledLikeSignature(names: Names, f: Recipe, recipe: Option<Digest>, cook: RepoName) {
    SpelledByAny(names, f.ingredients, cook, f.version) || RecipePlace(names, f, recipe, cook, f.version)
  }

  // What the cookbook tag reads after a promotion whose ingredients all crossed: the last
  // ingredient addressed to it, or what it read before, or - if it was free - the recipe if
  // it landed.
  ghost predicate CookbookTagIs(names: Names, f: Recipe, layout: Layout, recipe: Option<Digest>, landed: bool, a: Snapshot, b: Snapshot) {
    forall cook :: names.cookbook(f.name) == Some(cook) && !SpelledLikeSignature(names, f, recipe, cook) ==>
      var mid := Expected(LastAddressed(names, f.ingredients, cook, f.version), TagAt(a, cook, f.version));
      var now := TagAt(b, cook, f.version);
      && (mid.Some? ==> now == mid && (landed ==> recipe.Some? && Identical(layout, mid.value, recipe.value)))
      && (mid.None? ==> now == recipe || now.None?)
      && (mid.None? && landed ==> now == recipe && recipe.Some?)
  }

  // The recipe artifact is in the store, and what its tag reads once the ingredients crossed is
  // nothing or the same document.
  ghost predicate WillLand(w: World, names: Names, f: Recipe, layout: Layout, src: Repo, a: Snapshot) {
    var cook := names.cookbook(f.name);
    && cook.Some? && !SpelledByAny(names, f.ingredients, cook.value, f.version) && f.version in src.tags
    && var d := src.tags[f.version];
       && layout(d).Some? && InStore(w, src, d)
       && var mid := Expected(LastAddressed(names, f.ingredients, cook.value, f.version), TagAt(a, cook.value, f.version));
          mid.None? || Identical(layout, mid.value, d)
  }

  // A whole promotion: what holds of the zone in every state of it, what its verdict means, and
  // what the cookbook tag reads in the end. `all` says that every ingredient crossed.
  method PromoteRecipe(store: Registry, zone: Registry, w: World, ghost rank: Digest -> nat, names: Names, f: Recipe,
                       layout: Layout, upstream: bool, retries: int)
    returns (landed: bool, ghost recipe: Option<Digest>, ghost all: bool)
    requires Acyclic(w, rank) && store != zone && f.version != ""
    requires forall i :: 0 <= i < |f.ingredients| ==> f.ingredients[i].version != ""
    requires AllClosed(w, zone.repos)
    modifies store, zone
    ensures old(zone.trail) <= zone.trail && Promoted(w, names, f, layout, recipe, old(zone.repos), zone.repos)
    ensures forall k :: |old(zone.trail)| <= k < |zone.trail| ==>
              Promoted(w, names, f, layout, recipe, old(zone.repos), zone.trail[k])
    ensures recipe.Some? ==> names.stored(f.nominal, "").Some?
                             && recipe == TagAt(store.repos, names.stored(f.nominal, "").value, f.version)
    ensures !upstream ==> store.repos == old(store.repos)
    ensures landed ==> all && recipe.Some? && names.cookbook(f.name).Some?
    ensures all ==> AllHeld(names, f, zone.repos) && CookbookTagIs(names, f, layout, recipe, landed, old(zone.repos), zone.repos)
    ensures zone.Calm() && store.Calm() && names.stored(f.nominal, "").Some? && AllSendable(w, names, f.ingredients, old(store.repos)) ==>
              all && store.repos == old(store.repos)
    ensures all && (!upstream || zone.Calm()) ==>
              AllCarried(w, rank, names, f.ingredients, PublishPlaces(names, f, recipe), |f.ingredients|, zone.Calm(), store.repos, old(zone.repos), zone.repos)
    ensures landed && OwnCookbook(names, f, recipe) && TagAt(old(zone.repos), names.cookbook(f.name).value, f.version).None? ==>
              RecipeCarried(w, rank, In(store.repos, names.stored(f.nominal, "").value), names.cookbook(f.name).value, f.version,
                            recipe.value, zone.Calm(), old(zone.repos), zone.repos)
    ensures all && zone.Calm() ==>
              names.stored(f.nominal, "").Some?
              && (WillLand(w, names, f, layout, In(store.repos, names.stored(f.nominal, "").value), old(zone.repos)) ==> landed)
  {
    recipe, all := None, false;
    var local := names.stored(f.nominal, "");
    var unverified := store.Fails();
    if local.None? || unverified {
      return false, recipe, all;
    }
    ghost var places := PublishPlaces(names, f, TagAt(store.repos, local.value, f.version));
    var crossed := PromoteIngredients(store, zone, w, rank, names, f, upstream, retries, places);
    all := crossed;
    ghost var mid, trail := zone.repos, zone.trail;
    if !crossed {
      SideRunPromotes(w, names, f, layout, None, old(zone.repos), old(zone.trail), mid, trail);
      return false, recipe, all;
    }
    recipe := TagAt(store.repos, local.value, f.version);
    landed := PropagateRecipe(store, zone, w, rank, names, f, local.value, layout);
    PublishingRunPromotes(w, names, f, layout, recipe, old(zone.repos), old(zone.trail), mid, trail, zone.repos, zone.trail);
    CookbookTagAfter(w, names, f, layout, recipe, landed, old(zone.repos), mid, zone.repos);
    if !upstream || zone.Calm() {
      AllCarriedStay(w, rank, names, f.ingredients, places, zone.Calm(), store.repos, old(zone.repos), mid, zone.repos);
    }
    if landed && OwnCookbook(names, f, recipe) {
      RecipeCarriedFrom(w, rank, names, f, recipe, In(store.repos, local.value), zone.Calm(), old(zone.repos), mid, zone.repos);
    }
  }

  // Where publishing the recipe may move tags.
  ghost function PublishPlaces(names: Names, f: Recipe, recipe: Option<Digest>): Places {
    RecipeSide(names, f, recipe) + CookbookPlace(names, f)
  }

  // No ingredient writes where the recipe is published.
  ghost predicate OwnCookbook(names: Names, f: Recipe, recipe: Option<Digest>) {
    forall r, t :: (r, t) in PublishPlaces(names, f, recipe) ==>
      forall j :: 0 <= j < |f.ingredients| ==> !IngredientPlace(names, f.ingredients[j], r, t)
  }

  lemma AllCarriedStay(w: World, rank: Digest -> nat, names: Names, ings: seq<Ingredient>, others: Places, calm: bool, store: Snapshot,
                       a: Snapshot, b: Snapshot, c: Snapshot)
    requires Acyclic(w, rank) && AllCarried(w, rank, names, ings, others, |ings|, calm, store, a, b) && Changes(w, others, b, c)
    ensures AllCarried(w, rank, names, ings, others, |ings|, calm, store, a, c)
  {
    forall i | 0 <= i < |ings| && OwnPlaces(names, ings, others, i) && !UpToDate(names, ings[i], a)
      ensures Carried(w, rank, names, ings[i], calm, store, a, c)
    {
      CarriedStays(w, rank, names, ings[i], calm, store, others, a, b, c);
    }
  }

  lemma RecipeCarriedFrom(w: World, rank: Digest -> nat, names: Names, f: Recipe, recipe: Option<Digest>, src: Repo, calm: bool,
                          a: Snapshot, b: Snapshot, c: Snapshot)
    requires Acyclic(w, rank) && OwnCookbook(names, f, recipe) && recipe.Some? && names.cookbook(f.name).Some?
    requires OthersStand(names, f.ingredients, |f.ingredients|, a, b)
    requires var cook := names.cookbook(f.name).value;
             TagAt(b, cook, f.version).None? ==> RecipeCarried(w, rank, src, cook, f.version, recipe.value, calm, b, c)
    ensures var cook := names.cookbook(f.name).value;
            TagAt(a, cook, f.version).None? ==> RecipeCarried(w, rank, src, cook, f.version, recipe.value, calm, a, c)
  {
    var cook := names.cookbook(f.name).value;
    forall t | t == f.version || t in SignatureTagsOf(recipe.value) ensures TagAt(b, cook, t) == TagAt(a, cook, t) {
      assert RecipePlace(names, f, recipe, cook, t) || t == f.version;
      assert (cook, t) in PublishPlaces(names, f, recipe);
    }
    if calm && TagAt(a, cook, f.version).None? {
      forall t | t in SignatureTagsOf(recipe.value) && t != "" ensures SignatureTravels(w, src, cook, t, f.version, a, c) {
        assert SignatureTravels(w, src, cook, t, f.version, b, c);
      }
    }
  }

  lemma CookbookTagAfter(w: World, names: Names, f: Recipe, layout: Layout, recipe: Option<Digest>, landed: bool, a: Snapshot, b: Snapshot, c: Snapshot)
    requires AllHeld(names, f, b) && TagsFollow(names, f.ingredients, a, b)
    requires Changes(w, RecipeSide(names, f, recipe) + CookbookPlace(names, f), b, c)
    requires KeptAt(names, f, layout, recipe, RecipeSide(names, f, recipe), b, c)
    requires landed ==> Landed(names, f, layout, recipe, b, c)
    ensures AllHeld(names, f, c) && CookbookTagIs(names, f, layout, recipe, landed, a, c)
  {
    AllHeldStays(w, RecipeSide(names, f, recipe) + CookbookPlace(names, f), names, f, b, c);
  }

  // An existing cookbook tag survives a promotion whose ingredients all crossed if and only if no
  // ingredient is addressed to it, or the last one that is carries what the tag already read.
  lemma CookbookTagKeptIff(names: Names, f: Recipe, layout: Layout, recipe: Option<Digest>, landed: bool, a: Snapshot, b: Snapshot, cook: RepoName)
    requires CookbookTagIs(names, f, layout, recipe, landed, a, b)
    requires names.cookbook(f.name) == Some(cook) && !SpelledLikeSignature(names, f, recipe, cook) && TagAt(a, cook, f.version).Some?
    ensures TagAt(b, cook, f.version) == TagAt(a, cook, f.version)
            <==> var last := LastAddressed(names, f.ingredients, cook, f.version); last.None? || last == TagAt(a, cook, f.version)
  {
  }

  // While only ingredients are pushed, the cookbook tag does not move.
  lemma SidePromotes(w: World, names: Names, f: Recipe, layout: Layout, recipe: Option<Digest>, a: Snapshot, s: Snapshot)
    requires Changes(w, SidePlaces(names, f, None), a, s)
    ensures Promoted(w, names, f, layout, recipe, a, s)
  {
    assert SidePlaces(names, f, None) <= SidePlaces(names, f, recipe);
  }

  lemma SideRunPromotes(w: World, names: Names, f: Recipe, layout: Layout, recipe: Option<Digest>,
                        a: Snapshot, was: seq<Snapshot>, b: Snapshot, now: seq<Snapshot>)
    requires Run(w, SidePlaces(names, f, None), a, was, b, now)
    ensures Promoted(w, names, f, layout, recipe, a, b)
    ensures forall k :: |was| <= k < |now| ==> Promoted(w, names, f, layout, recipe, a, now[k])
  {
    SidePromotes(w, names, f, layout, recipe, a, b);
    forall k | |was| <= k < |now| ensures Promoted(w, names, f, layout, recipe, a, now[k]) {
      SidePromotes(w, names, f, layout, recipe, a, now[k]);
    }
  }

  // Publishing happens with every ingredient held.
  lemma PublishingPromotes(w: World, names: Names, f: Recipe, layout: Layout, recipe: Option<Digest>, a: Snapshot, b: Snapshot, s: Snapshot)
    requires Changes(w, SidePlaces(names, f, None), a, b) && AllHeld(names, f, b)
    requires Changes(w, RecipeSide(names, f, recipe) + CookbookPlace(names, f), b, s)
    requires KeptAt(names, f, layout, recipe, RecipeSide(names, f, recipe), b, s)
    ensures Promoted(w, names, f, layout, recipe, a, s)
  {
    SidePromotes(w, names, f, layout, recipe, a, b);
    assert RecipeSide(names, f, recipe) <= SidePlaces(names, f, recipe);
    ChangesTransitive(w, SidePlaces(names, f, recipe) + CookbookPlace(names, f), a, b, s);
    AllHeldStays(w, SidePlaces(names, f, recipe) + CookbookPlace(names, f), names, f, b, s);
    assert SidePlaces(names, f, None) <= SidePlaces(names, f, recipe);
  }

  lemma PublishingRunPromotes(w: World, names: Names, f: Recipe, layout: Layout, recipe: Option<Digest>, a: Snapshot, ta: seq<Snapshot>,
                              b: Snapshot, tb: seq<Snapshot>, c: Snapshot, tc: seq<Snapshot>)
    requires Run(w, SidePlaces(names, f, None), a, ta, b, tb) && AllHeld(names, f, b)
    requires Run(w, RecipeSide(names, f, recipe) + CookbookPlace(names, f), b, tb, c, tc)
    requires KeptAt(names, f, layout, recipe, RecipeSide(names, f, recipe), b, c)
    requires KeptAll(names, f, layout, recipe, RecipeSide(names, f, recipe), b, tc, |tb|)
    ensures Promoted(w, names, f, layout, recipe, a, c)
    ensures forall k :: |ta| <= k < |tc| ==> Promoted(w, names, f, layout, recipe, a, tc[k])
  {
    PublishingPromotes(w, names, f, layout, recipe, a, b, c);
    forall k | |ta| <= k < |tc| ensures Promoted(w, names, f, layout, recipe, a, tc[k]) {
      if k < |tb| {
        assert tc[k] == tb[k];
        SidePromotes(w, names, f, layout, recipe, a, tc[k]);
      } else {
        PublishingPromotes(w, names, f, layout, recipe, a, b, tc[k]);
      }
    }
  }

  // An existing cookbook tag is never re-pointed, and a new one is never ahead of its ingredients.
  lemma CookbookTagsAreSafe(w: World, names: Names, f: Recipe, layout: Layout, recipe: Option<Digest>, a: Snapshot, s: Snapshot,
                            cook: RepoName, t: Tag)
    requires Promoted(w, names, f, layout, recipe, a, s)
    requires names.cookbook(f.name) == Some(cook) && (cook, t) !in SidePlaces(names, f, recipe)
    ensures TagAt(a, cook, t).Some? ==> TagAt(s, cook, t) == TagAt(a, cook, t)
    ensures TagAt(s, cook, t) != TagAt(a, cook, t) ==> t == f.version && TagAt(s, cook, t) == recipe && AllHeld(names, f, s)
  {
  }
}
