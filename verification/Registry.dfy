/**
 A registry: repositories of blobs, manifests and tags.

 Content is addressed by digest, so a repository holds digests and `World` says what each digest
 stands for; no state of any registry can make a digest mean something else. Writes may fail;
 `trail` holds the registry after every write, so it lists every state in which a transfer can be
 interrupted.
 */
module Registry {
  import opened Wrappers

  type RepoName = string
  type Tag = string

  datatype Manifest =
    | Image(config: Digest, layers: seq<Digest>)
    | Index(children: seq<Digest>)

  datatype World = World(doc: Digest -> Manifest, size: Digest -> nat)

  datatype Repo = Repo(blobs: set<Digest>, manifests: set<Digest>, tags: map<Tag, Digest>)

  type Snapshot = map<RepoName, Repo>

  function In(s: Snapshot, repo: RepoName): Repo {
    if repo in s then s[repo] else Repo({}, {}, map[])
  }

  // The blobs an image manifest names; an empty digest is an absent descriptor.
  function Needs(w: World, d: Digest): set<Digest> {
    match w.doc(d)
    case Image(config, layers) => set b | b in [config] + layers && b != ""
    case Index(_) => {}
  }

  function Children(w: World, d: Digest): seq<Digest> {
    match w.doc(d)
    case Image(_, _) => []
    case Index(children) => children
  }

  // A digest cannot occur below itself, so digests have a rank that children lower.
  ghost predicate Acyclic(w: World, rank: Digest -> nat) {
    forall d, c :: c in Children(w, d) ==> rank(c) < rank(d)
  }

  // Every image manifest present has all its blobs present, and tags name present manifests.
  ghost predicate BlobClosed(w: World, r: Repo) {
    && (forall m :: m in r.manifests ==> Needs(w, m) <= r.blobs)
    && (forall t :: t in r.tags ==> r.tags[t] in r.manifests)
  }

  // A world in which every manifest is an image without blobs.
  function PlainImage(d: Digest): Manifest { Image("", []) }

  const Everyday := World(PlainImage, _ => 0)

  /******* How a transfer may change one repository *******/

  // A transfer into one repository: which tag it may write, with which digest, which children its
  // indexes are expected to bring along, and which one index is exempt from that.
  datatype Scope = Scope(repo: RepoName, tag: Tag, target: Digest, along: iset<Digest>, exempt: set<Digest>)

  predicate Brings(w: World, sc: Scope, m: Digest, c: Digest) {
    m !in sc.exempt && c in Children(w, m) && c in sc.along
  }

  // Nothing is lost; what is new is complete; at most the one tag moved.
  ghost predicate Extends(w: World, sc: Scope, a: Repo, b: Repo) {
    && a.blobs <= b.blobs && a.manifests <= b.manifests
    && (forall m :: m in b.manifests && m !in a.manifests ==> Needs(w, m) <= b.blobs)
    && (forall m, c :: m in b.manifests && m !in a.manifests && Brings(w, sc, m, c) ==> c in b.manifests)
    && (b.tags == a.tags || (sc.tag != "" && b.tags == a.tags[sc.tag := sc.target] && sc.target in b.manifests))
  }

  ghost predicate Advances(w: World, sc: Scope, a: Snapshot, b: Snapshot) {
    && (forall r :: r != sc.repo ==> In(b, r) == In(a, r))
    && Extends(w, sc, In(a, sc.repo), In(b, sc.repo))
  }

  lemma ExtendsTransitive(w: World, sc: Scope, a: Repo, b: Repo, c: Repo)
    requires Extends(w, sc, a, b) && Extends(w, sc, b, c)
    ensures Extends(w, sc, a, c)
  {
  }

  lemma ExtendsKeepsClosed(w: World, sc: Scope, a: Repo, b: Repo)
    requires Extends(w, sc, a, b) && BlobClosed(w, a)
    ensures BlobClosed(w, b)
  {
  }

  lemma AdvancesTransitive(w: World, sc: Scope, a: Snapshot, b: Snapshot, c: Snapshot)
    requires Advances(w, sc, a, b) && Advances(w, sc, b, c)
    ensures Advances(w, sc, a, c)
  {
    ExtendsTransitive(w, sc, In(a, sc.repo), In(b, sc.repo), In(c, sc.repo));
  }

  // Every snapshot from position n on advances from `a`.
  ghost predicate AllAdvance(w: World, sc: Scope, a: Snapshot, trail: seq<Snapshot>, n: nat) {
    forall k :: n <= k < |trail| ==> Advances(w, sc, a, trail[k])
  }

  lemma AllAdvanceTransitive(w: World, sc: Scope, a: Snapshot, b: Snapshot, before: seq<Snapshot>, after: seq<Snapshot>, n: nat)
    requires Advances(w, sc, a, b) && AllAdvance(w, sc, a, before, n) && before <= after && n <= |before|
    requires AllAdvance(w, sc, b, after, |before|)
    ensures AllAdvance(w, sc, a, after, n)
  {
    forall k | n <= k < |after| ensures Advances(w, sc, a, after[k]) {
      if k >= |before| {
        AdvancesTransitive(w, sc, a, b, after[k]);
      } else {
        assert after[k] == before[k];
      }
    }
  }

  class Registry {
    const fails: nat -> bool        // whether the n-th request fails - of a copy, those to its source included
    const final: nat -> bool        // whether that failure is one that repeating cannot mend
    const sparse: nat -> bool       // whether it is the refusal of an index without its members
    var repos: Snapshot
    var requests: nat
    ghost var trail: seq<Snapshot>

    constructor (repos: Snapshot, fails: nat -> bool, final: nat -> bool, sparse: nat -> bool)
      ensures this.repos == repos && this.fails == fails && this.final == final && this.sparse == sparse && trail == [repos]
    {
      this.fails, this.final, this.sparse, this.repos, requests, trail := fails, final, sparse, repos, 0, [repos];
    }

    ghost predicate Calm() {
      forall n :: !fails(n)
    }

    // There were requests from number n on, and the last one failed.
    ghost predicate LastFailed(n: nat)
      reads this`requests
    {
      n < requests && fails(requests - 1)
    }

    // The next request.
    method Fails() returns (failed: bool)
      modifies this`requests
      ensures requests == old(requests) + 1 && failed == fails(old(requests))
    {
      failed := fails(requests);
      requests := requests + 1;
    }

    // Store one blob, or fail and change nothing: content is committed only once it verified.
    method WriteBlob(repo: RepoName, d: Digest) returns (ok: bool)
      modifies this
      ensures old(requests) <= requests && (!ok ==> LastFailed(old(requests)))
      ensures !ok ==> repos == old(repos) && trail == old(trail)
      ensures ok ==> repos == old(repos[repo := In(repos, repo).(blobs := In(repos, repo).blobs + {d})])
                     && trail == old(trail) + [repos]
    {
      var failed := Fails();
      ok := !failed;
      if ok {
        var r := In(repos, repo);
        repos := repos[repo := r.(blobs := r.blobs + {d})];
        trail := trail + [repos];
      }
    }

    // Store one manifest, then its tag; a failure may fall between the two.
    method PutManifest(repo: RepoName, d: Digest, tag: Tag, ghost w: World, ghost sc: Scope) returns (ok: bool)
      requires sc.repo == repo && (tag != "" ==> sc.tag == tag && sc.target == d)
      requires Needs(w, d) <= In(repos, repo).blobs
      requires forall c :: Brings(w, sc, d, c) ==> c in In(repos, repo).manifests
      modifies this
      ensures old(trail) <= trail && AllAdvance(w, sc, old(repos), trail, |old(trail)|)
      ensures Advances(w, sc, old(repos), repos)
      ensures old(requests) <= requests && (!ok ==> LastFailed(old(requests)))
      ensures In(repos, repo).blobs == old(In(repos, repo).blobs)
      ensures In(repos, repo).manifests <= old(In(repos, repo).manifests) + {d}
      ensures ok ==> d in In(repos, repo).manifests
      ensures ok ==> In(repos, repo).tags == if tag == "" then old(In(repos, repo).tags) else old(In(repos, repo).tags)[tag := d]
      ensures !ok ==> In(repos, repo).tags == old(In(repos, repo).tags)
    {
      var failed := Fails();
      if failed {
        return false;
      }
      PutAdvances(w, sc, repos, d);
      repos := WithManifest(repos, repo, d);
      trail := trail + [repos];
      if tag != "" {
        failed := Fails();
        if failed {
          return false;
        }
        repos := WithTag(repos, repo, tag, d);
        trail := trail + [repos];
      }
      ok := true;
    }
  }

  function WithManifest(s: Snapshot, repo: RepoName, d: Digest): Snapshot {
    var r := In(s, repo);
    s[repo := r.(manifests := r.manifests + {d})]
  }

  function WithTag(s: Snapshot, repo: RepoName, tag: Tag, d: Digest): Snapshot {
    var r := In(s, repo);
    s[repo := r.(tags := r.tags[tag := d])]
  }

  // A manifest whose blobs and expected children are there may be stored, and then tagged.
  lemma PutAdvances(w: World, sc: Scope, s: Snapshot, d: Digest)
    requires Needs(w, d) <= In(s, sc.repo).blobs
    requires forall c :: Brings(w, sc, d, c) ==> c in In(s, sc.repo).manifests
    ensures var m := WithManifest(s, sc.repo, d);
            && Advances(w, sc, s, m)
            && (sc.tag != "" && sc.target == d ==> Advances(w, sc, s, WithTag(m, sc.repo, sc.tag, d)))
  {
    var a, m := In(s, sc.repo), WithManifest(s, sc.repo, d);
    assert Extends(w, sc, a, In(m, sc.repo));
    if sc.tag != "" && sc.target == d {
      assert Extends(w, sc, a, In(WithTag(m, sc.repo, sc.tag, d), sc.repo));
    }
  }

  /******* Sizes *******/

  ghost function Total(w: World, s: set<Digest>): nat {
    if s == {} then 0 else
      var x :| x in s;
      w.size(x) + Total(w, s - {x})
  }

  lemma {:induction false} TotalWith(w: World, s: set<Digest>, x: Digest)
    requires x in s
    ensures Total(w, s) == w.size(x) + Total(w, s - {x})
    decreases |s|
  {
    var y :| y in s && Total(w, s) == w.size(y) + Total(w, s - {y});
    if y != x {
      TotalWith(w, s - {y}, x);
      TotalWith(w, s - {x}, y);
      assert s - {y} - {x} == s - {x} - {y};
    }
  }

  lemma {:induction false} TotalDisjoint(w: World, s: set<Digest>, t: set<Digest>)
    requires s !! t
    ensures Total(w, s + t) == Total(w, s) + Total(w, t)
    decreases |t|
  {
    if t == {} {
      assert s + t == s;
    } else {
      var x :| x in t;
      TotalWith(w, t, x);
      TotalWith(w, s + t, x);
      assert s + t - {x} == s + (t - {x});
      TotalDisjoint(w, s, t - {x});
    }
  }

  // What was gained in two steps.
  lemma TotalGain(w: World, a: set<Digest>, b: set<Digest>, c: set<Digest>)
    requires a <= b <= c
    ensures Total(w, c - a) == Total(w, b - a) + Total(w, c - b)
  {
    assert c - a == (b - a) + (c - b);
    TotalDisjoint(w, b - a, c - b);
  }

  lemma TotalOne(w: World, a: set<Digest>, x: Digest)
    requires x !in a
    ensures Total(w, (a + {x}) - a) == w.size(x)
  {
    assert (a + {x}) - a == {x};
    TotalWith(w, {x}, x);
  }

  lemma TotalZero(w: World, s: set<Digest>)
    requires s == {}
    ensures Total(w, s) == 0
  {
  }
}
