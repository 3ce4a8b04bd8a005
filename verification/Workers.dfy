/**
 The concurrent workers that fetch a recipe's ingredients, as a state machine over their steps, and what
 is in the store after recipes and runs.
 */
module Workers {
  import opened Wrappers
  import opened Registry
  import opened Recipes
  import opened SignatureTags
  import opened Prune
  import opened Retention

  // The row of an ingredient that did not arrive.
  const NoRow := IngredientRecord("", "", "", "")

  datatype Phase = Unlaunched | Running | Fetched | Over

  function RefOf(at: Relocation, ing: Ingredient): TagRef {
    TagRef(RowOf(at, ing).repo, ing.version)
  }

  function Item(rid: string, name: string): string {
    rid + "/" + name
  }

  // The item was settled before, or another ingredient of the recipe goes by the same name.
  ghost predicate MayCountAsSettled(rid: string, ings: seq<Ingredient>, i: nat, settled: set<string>)
    requires i < |ings|
  {
    || Item(rid, ings[i].name) in settled
    || exists j :: 0 <= j < |ings| && j != i && Item(rid, ings[j].name) == Item(rid, ings[i].name)
  }

  function Weight(p: Phase): nat {
    match p case Unlaunched => 3 case Running => 2 case Fetched => 1 case Over => 0
  }

  function Remaining(phase: seq<Phase>): nat {
    if phase == [] then 0 else Remaining(phase[..|phase| - 1]) + Weight(phase[|phase| - 1])
  }

  lemma {:induction false} RemainingAfter(phase: seq<Phase>, i: nat, p: Phase)
    requires i < |phase|
    ensures Remaining(phase[i := p]) == Remaining(phase) - Weight(phase[i]) + Weight(p)
  {
    var last := |phase| - 1;
    if i < last {
      assert phase[i := p][..last] == phase[..last][i := p];
      RemainingAfter(phase[..last], i, p);
    } else {
      assert phase[i := p][..last] == phase[..last];
    }
  }

  // x is spelled like a signature of d.
  predicate LikeSignature(repo: RepoName, d: Digest, x: TagRef) {
    x.repo == repo && x.tag in SignatureTagsOf(d)
  }

  // A tagged manifest changes its own tag and its signature tags only.
  ghost predicate OnlyOwnTags(repo: RepoName, tag: Tag, d: Digest, a: map<TagRef, Digest>, b: map<TagRef, Digest>) {
    forall x :: Changed(x, a, b) ==> (x == TagRef(repo, tag) && b[x] == d) || LikeSignature(repo, d, x)
  }

  /******* What fetching may write *******/

  // Fetching an ingredient that was not settled tags d as x: itself, or under a tag spelled like its signatures.
  predicate Writes(at: Relocation, rid: string, ing: Ingredient, settled: set<string>, x: TagRef, d: Digest) {
    && Item(rid, ing.name) !in settled
    && ((x == RefOf(at, ing) && d == ing.digest) || LikeSignature(RowOf(at, ing).repo, ing.digest, x))
  }

  // Whatever changed was written for one of these ingredients.
  ghost predicate WrittenFor(at: Relocation, rid: string, ings: seq<Ingredient>, settled: set<string>, a: map<TagRef, Digest>, b: map<TagRef, Digest>) {
    forall x :: Changed(x, a, b) ==> exists ing :: ing in ings && Writes(at, rid, ing, settled, x, b[x])
  }

  predicate Changed(x: TagRef, a: map<TagRef, Digest>, b: map<TagRef, Digest>) {
    x in b && !(x in a && b[x] == a[x])
  }

  function ReposOf(at: Relocation, ings: seq<Ingredient>): set<RepoName> {
    set ing | ing in ings :: RowOf(at, ing).repo
  }

  function RecipeRepos(at: Relocation, r: Recipe): set<RepoName> {
    ReposOf(at, r.ingredients) + if at(r.nominal).Some? then {at(r.nominal).value} else {}
  }

  // Repositories that became recipe-managed are among these, and none ceased to be.
  ghost predicate ManagedWithin(repos: set<RepoName>, p: map<RepoName, Provenance>, p': map<RepoName, Provenance>) {
    forall repo :: (Managed(p, repo) ==> Managed(p', repo)) && (Managed(p', repo) ==> Managed(p, repo) || repo in repos)
  }

  function ItemsOf(rid: string, ings: seq<Ingredient>): set<string> {
    set ing | ing in ings :: Item(rid, ing.name)
  }

  function RecipeItems(r: Recipe): set<string> {
    ItemsOf(KeyFor(r), r.ingredients) + {Item(KeyFor(r), "recipe")}
  }

  /******* Workers *******/

  // What a source has to offer besides the content: its attached signature and its bundle.
  datatype Offer = Offer(attached: Option<Digest>, bundled: Option<Digest>)

  // What sources offer, and whether nothing fails.
  datatype Supply = Supply(calm: bool, offers: (string, Digest) -> Offer)

  predicate SignaturesIn(o: Offer, repo: RepoName, d: Digest, tags: map<TagRef, Digest>) {
    && (o.attached.Some? ==> TagRef(repo, SignatureTag(d)) in tags)
    && (o.bundled.Some? ==> TagRef(repo, FallbackTag(d)) in tags)
  }

  // Each signature tag carries what the source offers, or reads what it read - unless it is the content's own tag.
  predicate SignaturesAre(o: Offer, repo: RepoName, tag: Tag, d: Digest, a: map<TagRef, Digest>, b: map<TagRef, Digest>) {
    SignatureIs(o.attached, TagRef(repo, SignatureTag(d)), tag, a, b) && SignatureIs(o.bundled, TagRef(repo, FallbackTag(d)), tag, a, b)
  }

  predicate SignatureIs(o: Option<Digest>, x: TagRef, tag: Tag, a: map<TagRef, Digest>, b: map<TagRef, Digest>) {
    if o.Some? then x in b && b[x] == o.value
    else x.tag != tag ==> !Changed(x, a, b)
  }

  // The ingredient is tagged - and if nothing fails, its repository is recipe-managed and has its signatures.
  predicate Arrived(at: Relocation, sup: Supply, ing: Ingredient, tags: map<TagRef, Digest>, prov: map<RepoName, Provenance>) {
    && RefOf(at, ing) in tags
    && (sup.calm ==> Managed(prov, RowOf(at, ing).repo) && SignaturesIn(sup.offers(ing.ref, ing.digest), RowOf(at, ing).repo, ing.digest, tags))
  }

  // What one step of one worker may do.
  ghost predicate Stepped(at: Relocation, sup: Supply, item: string, ing: Ingredient, p: Phase, p': Phase, row': IngredientRecord, c: bool, c': bool,
                          a: map<TagRef, Digest>, b: map<TagRef, Digest>, s: set<string>, s': set<string>,
                          q: map<RepoName, Provenance>, q': map<RepoName, Provenance>) {
    && Weight(p') < Weight(p) && (c' ==> c)
    && (p' == Over && c' ==> row' == RowOf(at, ing))
    && a.Keys <= b.Keys && s <= s' <= s + {item}
    && ((p' == Over && c') || p' == Fetched ==>
          p == Fetched || (p == Unlaunched && item in s) || Arrived(at, sup, ing, b, q'))
    && ManagedWithin({RowOf(at, ing).repo}, q, q')
    && ((p' == Over && c') || p' == Fetched ==> p == Fetched || item in s')
    && (p == Unlaunched ==> s' == s && (p' == Over <==> item in s))
    && (p != Running ==> b == a) && (p' == Running ==> item !in s)
    && OnlyOwnTags(RowOf(at, ing).repo, ing.version, ing.digest, a, b)
  }

  ghost predicate WorkersOk(at: Relocation, sup: Supply, rid: string, ings: seq<Ingredient>, phase: seq<Phase>, rows: seq<IngredientRecord>,
                            complete: bool, tags: map<TagRef, Digest>, prov: map<RepoName, Provenance>, settled: set<string>, start: set<string>) {
    && |rows| == |phase| == |ings|
    && (forall i :: 0 <= i < |ings| && phase[i] == Over && complete ==> rows[i] == RowOf(at, ings[i]))
    && (forall i :: 0 <= i < |ings| && ((phase[i] == Over && complete) || phase[i] == Fetched) ==>
          Arrived(at, sup, ings[i], tags, prov) || MayCountAsSettled(rid, ings, i, start))
    && (forall i :: 0 <= i < |ings| && ((phase[i] == Over && complete) || phase[i] == Fetched) ==> Item(rid, ings[i].name) in settled)
    && (forall it :: it in settled && it !in start ==>
          exists j :: 0 <= j < |ings| && phase[j] != Unlaunched && it == Item(rid, ings[j].name))
  }

  // A worker that runs found its item unsettled.
  ghost predicate RunningUnsettled(rid: string, ings: seq<Ingredient>, phase: seq<Phase>, start: set<string>)
    requires |phase| == |ings|
  {
    forall i :: 0 <= i < |ings| && phase[i] == Running ==> Item(rid, ings[i].name) !in start
  }

  lemma WorkersStepOk(at: Relocation, sup: Supply, rid: string, ings: seq<Ingredient>, phase: seq<Phase>, rows: seq<IngredientRecord>, i: nat, p: Phase,
                      row: IngredientRecord, c: bool, c': bool, a: map<TagRef, Digest>, b: map<TagRef, Digest>,
                      s: set<string>, s': set<string>, q: map<RepoName, Provenance>, q': map<RepoName, Provenance>, start: set<string>)
    requires WorkersOk(at, sup, rid, ings, phase, rows, c, a, q, s, start) && i < |ings|
    requires Stepped(at, sup, Item(rid, ings[i].name), ings[i], phase[i], p, row, c, c', a, b, s, s', q, q')
    ensures WorkersOk(at, sup, rid, ings, phase[i := p], rows[i := row], c', b, q', s', start)
  {
    var phase', rows' := phase[i := p], rows[i := row];
    forall k | 0 <= k < |ings| && ((phase'[k] == Over && c') || phase'[k] == Fetched)
      ensures Arrived(at, sup, ings[k], b, q') || MayCountAsSettled(rid, ings, k, start)
    {
      assert Arrived(at, sup, ings[k], a, q) ==> Arrived(at, sup, ings[k], b, q');
      if k == i && phase[i] == Unlaunched && Item(rid, ings[i].name) in s && Item(rid, ings[i].name) !in start {
        var j :| 0 <= j < |ings| && phase[j] != Unlaunched && Item(rid, ings[i].name) == Item(rid, ings[j].name);
        assert j != i;
      }
    }
    forall it | it in s' && it !in start
      ensures exists j :: 0 <= j < |ings| && phase'[j] != Unlaunched && it == Item(rid, ings[j].name)
    {
      if it in s {
        var j :| 0 <= j < |ings| && phase[j] != Unlaunched && it == Item(rid, ings[j].name);
        assert phase'[j] != Unlaunched;
      } else {
        assert phase'[i] != Unlaunched && it == Item(rid, ings[i].name);
      }
    }
  }

  // A step writes only for ingredients that were not settled.
  lemma StepWrites(at: Relocation, sup: Supply, rid: string, ings: seq<Ingredient>, phase: seq<Phase>, i: nat, p: Phase, row: IngredientRecord, c: bool, c': bool,
                   a0: map<TagRef, Digest>, a: map<TagRef, Digest>, b: map<TagRef, Digest>, s: set<string>, s': set<string>,
                   q: map<RepoName, Provenance>, q': map<RepoName, Provenance>, start: set<string>)
    requires i < |ings| == |phase| && start <= s && WrittenFor(at, rid, ings, start, a0, a) && RunningUnsettled(rid, ings, phase, start)
    requires Stepped(at, sup, Item(rid, ings[i].name), ings[i], phase[i], p, row, c, c', a, b, s, s', q, q')
    ensures WrittenFor(at, rid, ings, start, a0, b) && RunningUnsettled(rid, ings, phase[i := p], start)
  {
    if phase[i] == Running {
      WritesMore(at, rid, ings, i, start, a0, a, b);
    }
  }

  lemma WritesMore(at: Relocation, rid: string, ings: seq<Ingredient>, i: nat, start: set<string>,
                   a0: map<TagRef, Digest>, a: map<TagRef, Digest>, b: map<TagRef, Digest>)
    requires i < |ings| && Item(rid, ings[i].name) !in start && WrittenFor(at, rid, ings, start, a0, a)
    requires OnlyOwnTags(RowOf(at, ings[i]).repo, ings[i].version, ings[i].digest, a, b)
    ensures WrittenFor(at, rid, ings, start, a0, b)
  {
    forall x | Changed(x, a0, b) ensures exists ing :: ing in ings && Writes(at, rid, ing, start, x, b[x]) {
      if Changed(x, a, b) {
        assert ings[i] in ings && Writes(at, rid, ings[i], start, x, b[x]);
      } else {
        var ing :| ing in ings && Writes(at, rid, ing, start, x, a[x]);
      }
    }
  }

  /******* What is there after a recipe *******/

  // Nothing of the recipe counts as fetched before it is: no item settled, no name used twice.
  ghost predicate FromScratch(r: Recipe, settled: set<string>) {
    var rid := KeyFor(r);
    && Item(rid, "recipe") !in settled
    && (forall i :: 0 <= i < |r.ingredients| ==>
          !MayCountAsSettled(rid, r.ingredients, i, settled) && r.ingredients[i].name != "recipe")
  }

  ghost predicate AllTagged(at: Relocation, r: Recipe, tags: map<TagRef, Digest>) {
    forall c :: Wants(at, r, c) ==> c.ref in tags
  }

  // Nothing settled the recipe's own item: not an earlier attempt, not an ingredient that goes by its name.
  predicate ArtifactDue(r: Recipe, settled: set<string>) {
    Item(KeyFor(r), "recipe") !in settled + ItemsOf(KeyFor(r), r.ingredients)
  }

  // With these items settled, synchronizing r brings c: the tag and digest of an unsettled ingredient or artifact.
  ghost predicate Fetches(at: Relocation, r: Recipe, settled: set<string>, c: Candidate) {
    || (exists ing :: ing in r.ingredients && Item(KeyFor(r), ing.name) !in settled && c == Candidate(RefOf(at, ing), ing.digest))
    || (ArtifactDue(r, settled) && at(r.nominal).Some? && c == Candidate(TagRef(at(r.nominal).value, r.version), r.digest))
  }

  // x is spelled like a signature of something r brings.
  ghost predicate Spells(at: Relocation, r: Recipe, settled: set<string>, x: TagRef) {
    || (exists ing :: ing in r.ingredients && Item(KeyFor(r), ing.name) !in settled && LikeSignature(RowOf(at, ing).repo, ing.digest, x))
    || (ArtifactDue(r, settled) && at(r.nominal).Some? && LikeSignature(at(r.nominal).value, r.digest, x))
  }

  // No two ingredients go by one name.
  predicate NamesApart(r: Recipe) {
    forall i, j :: 0 <= i < j < |r.ingredients| ==> r.ingredients[i].name != r.ingredients[j].name
  }

  // Nothing but what r brings is new; with the names apart, all of it is there.
  ghost predicate FetchesExactly(at: Relocation, r: Recipe, settled: set<string>, a: map<TagRef, Digest>, b: map<TagRef, Digest>) {
    && (forall x :: Changed(x, a, b) ==> Fetches(at, r, settled, Candidate(x, b[x])) || Spells(at, r, settled, x))
    && (NamesApart(r) ==> forall c :: Fetches(at, r, settled, c) ==> c.ref in b)
  }

  // Complete or not, whatever changed was written for something unsettled.
  ghost predicate WrittenForRecipe(at: Relocation, r: Recipe, settled: set<string>, a: map<TagRef, Digest>, b: map<TagRef, Digest>) {
    forall x :: Changed(x, a, b) ==>
      || (exists ing :: ing in r.ingredients && Writes(at, KeyFor(r), ing, settled, x, b[x]))
      || (Item(KeyFor(r), "recipe") !in settled && at(r.nominal).Some?
          && ((x == TagRef(at(r.nominal).value, r.version) && b[x] == r.digest) || LikeSignature(at(r.nominal).value, r.digest, x)))
  }

  // How the artifact step of a recipe goes from b to c.
  ghost predicate ArtifactStep(at: Relocation, r: Recipe, settled: set<string>, ok: bool, b: map<TagRef, Digest>, c: map<TagRef, Digest>) {
    && b.Keys <= c.Keys
    && (at(r.nominal).None? || Item(KeyFor(r), "recipe") in settled ==> c == b)
    && (at(r.nominal).Some? ==> OnlyOwnTags(at(r.nominal).value, r.version, r.digest, b, c))
    && (ok && Item(KeyFor(r), "recipe") !in settled ==> at(r.nominal).Some? && TagRef(at(r.nominal).value, r.version) in c)
  }

  // What the ingredient step of a recipe leaves.
  ghost predicate IngredientsDone(at: Relocation, sup: Supply, r: Recipe, s: set<string>, s': set<string>, b: map<TagRef, Digest>, q: map<RepoName, Provenance>) {
    && s' == s + ItemsOf(KeyFor(r), r.ingredients)
    && forall i :: 0 <= i < |r.ingredients| ==> Arrived(at, sup, r.ingredients[i], b, q) || MayCountAsSettled(KeyFor(r), r.ingredients, i, s)
  }

  // With the names apart, every ingredient that was not settled arrived.
  ghost predicate UnsettledArrived(at: Relocation, sup: Supply, r: Recipe, settled: set<string>, tags: map<TagRef, Digest>, prov: map<RepoName, Provenance>) {
    NamesApart(r) ==> forall ing :: ing in r.ingredients && Item(KeyFor(r), ing.name) !in settled ==> Arrived(at, sup, ing, tags, prov)
  }

  lemma ArrivedAfter(at: Relocation, sup: Supply, r: Recipe, s: set<string>, s': set<string>, b: map<TagRef, Digest>, c: map<TagRef, Digest>,
                     q: map<RepoName, Provenance>, q': map<RepoName, Provenance>)
    requires IngredientsDone(at, sup, r, s, s', b, q) && b.Keys <= c.Keys && ManagedWithin(RecipeRepos(at, r), q, q')
    ensures UnsettledArrived(at, sup, r, s, c, q')
  {
    if NamesApart(r) {
      forall ing | ing in r.ingredients && Item(KeyFor(r), ing.name) !in s ensures Arrived(at, sup, ing, c, q') {
        var i :| 0 <= i < |r.ingredients| && r.ingredients[i] == ing;
        AloneInItsName(r, i);
        assert Arrived(at, sup, r.ingredients[i], b, q);
      }
    }
  }

  lemma RecipeWrites(at: Relocation, r: Recipe, a: map<TagRef, Digest>, b: map<TagRef, Digest>, c: map<TagRef, Digest>,
                     s: set<string>, s': set<string>, ok: bool)
    requires s <= s' && WrittenFor(at, KeyFor(r), r.ingredients, s, a, b) && ArtifactStep(at, r, s', ok, b, c)
    ensures WrittenForRecipe(at, r, s, a, c)
  {
    forall x | Changed(x, a, c) && !(exists ing :: ing in r.ingredients && Writes(at, KeyFor(r), ing, s, x, c[x]))
      ensures Item(KeyFor(r), "recipe") !in s && at(r.nominal).Some?
              && ((x == TagRef(at(r.nominal).value, r.version) && c[x] == r.digest) || LikeSignature(at(r.nominal).value, r.digest, x))
    {
      assert Changed(x, b, c);
    }
  }

  lemma RecipeExact(at: Relocation, sup: Supply, r: Recipe, a: map<TagRef, Digest>, b: map<TagRef, Digest>, c: map<TagRef, Digest>,
                    s: set<string>, s': set<string>, q: map<RepoName, Provenance>)
    requires WrittenFor(at, KeyFor(r), r.ingredients, s, a, b) && IngredientsDone(at, sup, r, s, s', b, q) && ArtifactStep(at, r, s', true, b, c)
    ensures FetchesExactly(at, r, s, a, c)
  {
    forall x | Changed(x, a, c) ensures Fetches(at, r, s, Candidate(x, c[x])) || Spells(at, r, s, x) {
      if Changed(x, b, c) {
        assert ArtifactDue(r, s);
      } else {
        var ing :| ing in r.ingredients && Writes(at, KeyFor(r), ing, s, x, b[x]);
      }
    }
    if NamesApart(r) {
      forall x | Fetches(at, r, s, x) ensures x.ref in c {
        FetchedIsThere(at, sup, r, b, c, s, s', q, x);
      }
    }
  }

  lemma FetchedIsThere(at: Relocation, sup: Supply, r: Recipe, b: map<TagRef, Digest>, c: map<TagRef, Digest>,
                       s: set<string>, s': set<string>, q: map<RepoName, Provenance>, x: Candidate)
    requires IngredientsDone(at, sup, r, s, s', b, q) && ArtifactStep(at, r, s', true, b, c) && NamesApart(r) && Fetches(at, r, s, x)
    ensures x.ref in c
  {
    if ing :| ing in r.ingredients && Item(KeyFor(r), ing.name) !in s && x == Candidate(RefOf(at, ing), ing.digest) {
      var i :| 0 <= i < |r.ingredients| && r.ingredients[i] == ing;
      AloneInItsName(r, i);
      assert RefOf(at, r.ingredients[i]) in b;
    }
  }

  lemma AloneInItsName(r: Recipe, i: nat)
    requires NamesApart(r) && i < |r.ingredients|
    ensures forall j :: 0 <= j < |r.ingredients| && j != i ==>
              Item(KeyFor(r), r.ingredients[j].name) != Item(KeyFor(r), r.ingredients[i].name)
  {
    forall j | 0 <= j < |r.ingredients| && j != i
      ensures Item(KeyFor(r), r.ingredients[j].name) != Item(KeyFor(r), r.ingredients[i].name)
    {
      ItemsDiffer(KeyFor(r), r.ingredients[j].name, r.ingredients[i].name);
    }
  }

  lemma ItemsDiffer(rid: string, m: string, n: string)
    requires m != n
    ensures Item(rid, m) != Item(rid, n)
  {
    assert Item(rid, m)[|rid| + 1..] == m && Item(rid, n)[|rid| + 1..] == n;
  }

  // From scratch, a recipe brings all it wants.
  lemma ScratchNames(r: Recipe, settled: set<string>)
    requires FromScratch(r, settled)
    ensures NamesApart(r)
  {
    forall i, j | 0 <= i < j < |r.ingredients| ensures r.ingredients[i].name != r.ingredients[j].name {
      assert !MayCountAsSettled(KeyFor(r), r.ingredients, i, settled);
    }
  }

  lemma ScratchFetchesAll(at: Relocation, r: Recipe, settled: set<string>, c: Candidate)
    requires FromScratch(r, settled) && Wants(at, r, c)
    ensures Fetches(at, r, settled, c)
  {
    if ing :| ing in r.ingredients && IsCandidate(RowOf(at, ing), c) {
      var i :| 0 <= i < |r.ingredients| && r.ingredients[i] == ing;
      assert !MayCountAsSettled(KeyFor(r), r.ingredients, i, settled);
      assert c.ref == RefOf(at, ing);
    } else {
      NotTheRecipeItem(KeyFor(r), r.ingredients);
    }
  }

  lemma ScratchTagged(at: Relocation, r: Recipe, settled: set<string>, a: map<TagRef, Digest>, b: map<TagRef, Digest>, complete: bool)
    requires complete ==> FetchesExactly(at, r, settled, a, b)
    ensures complete && FromScratch(r, settled) ==> AllTagged(at, r, b)
  {
    if complete && FromScratch(r, settled) {
      ScratchNames(r, settled);
      forall c | Wants(at, r, c) ensures c.ref in b {
        ScratchFetchesAll(at, r, settled, c);
      }
    }
  }

  // A recipe brings nothing outside its repositories, and nothing when all of it is settled.
  lemma WrittenInRepos(at: Relocation, r: Recipe, s: set<string>, a: map<TagRef, Digest>, b: map<TagRef, Digest>)
    requires WrittenForRecipe(at, r, s, a, b) && a.Keys <= b.Keys
    ensures forall x :: Changed(x, a, b) ==> x.repo in RecipeRepos(at, r)
    ensures RecipeItems(r) <= s ==> b == a
  {
    if RecipeItems(r) <= s {
      forall x ensures !Changed(x, a, b) {
        assert forall ing :: ing in r.ingredients ==> Item(KeyFor(r), ing.name) in RecipeItems(r);
      }
      assert forall x :: x in b ==> !Changed(x, a, b);
    }
  }

  lemma NotTheRecipeItem(rid: string, ings: seq<Ingredient>)
    ensures forall i :: 0 <= i < |ings| && ings[i].name != "recipe" ==> Item(rid, ings[i].name) != Item(rid, "recipe")
  {
    forall i | 0 <= i < |ings| && ings[i].name != "recipe" ensures Item(rid, ings[i].name) != Item(rid, "recipe") {
      assert Item(rid, ings[i].name)[|rid| + 1..] == ings[i].name;
      assert Item(rid, "recipe")[|rid| + 1..] == "recipe";
    }
  }

  /******* What is there after a run *******/

  function AllRepos(at: Relocation, entries: seq<Entry>): set<RepoName> {
    set e, repo | e in entries && e.resolves.Some? && repo in RecipeRepos(at, e.resolves.value) :: repo
  }

  function AllItems(entries: seq<Entry>): set<string> {
    set e, it | e in entries && e.resolves.Some? && it in RecipeItems(e.resolves.value) :: it
  }

  // No entry's item was settled before or is another entry's.
  ghost predicate ItemsApart(entries: seq<Entry>, settled: set<string>) {
    && (forall i :: 0 <= i < |entries| && entries[i].resolves.Some? ==> FromScratch(entries[i].resolves.value, settled))
    && (forall i, j :: 0 <= j < i < |entries| && entries[i].resolves.Some? && entries[j].resolves.Some? ==>
          RecipeItems(entries[i].resolves.value) !! RecipeItems(entries[j].resolves.value))
  }

  ghost predicate AllTaggedUpTo(at: Relocation, entries: seq<Entry>, n: nat, tags: map<TagRef, Digest>)
    requires n <= |entries|
  {
    forall i :: 0 <= i < n && entries[i].resolves.Some? ==> AllTagged(at, entries[i].resolves.value, tags)
  }

  // The recipe and its ingredients can be relocated.
  predicate Located(at: Relocation, r: Recipe) {
    at(r.nominal).Some? && forall ing :: ing in r.ingredients ==> at(ing.ref).Some?
  }

  // Every entry resolves, to a recipe that can be relocated.
  predicate AllLocated(at: Relocation, entries: seq<Entry>) {
    forall i :: 0 <= i < |entries| ==> entries[i].resolves.Some? && Located(at, entries[i].resolves.value)
  }

  // One of the first n entries brings c, with what is settled when its turn comes in a complete run.
  ghost predicate FetchedBy(at: Relocation, entries: seq<Entry>, n: nat, start: set<string>, c: Candidate)
    requires n <= |entries|
  {
    exists j :: 0 <= j < n && entries[j].resolves.Some? && Fetches(at, entries[j].resolves.value, start + AllItems(entries[..j]), c)
  }

  ghost predicate TagFetchedBy(at: Relocation, entries: seq<Entry>, n: nat, start: set<string>, x: TagRef)
    requires n <= |entries|
  {
    exists c :: FetchedBy(at, entries, n, start, c) && c.ref == x
  }

  ghost predicate SpelledBy(at: Relocation, entries: seq<Entry>, n: nat, start: set<string>, x: TagRef)
    requires n <= |entries|
  {
    exists j :: 0 <= j < n && entries[j].resolves.Some? && Spells(at, entries[j].resolves.value, start + AllItems(entries[..j]), x)
  }

  predicate AllNamesApart(entries: seq<Entry>) {
    forall i :: 0 <= i < |entries| && entries[i].resolves.Some? ==> NamesApart(entries[i].resolves.value)
  }

  // The tags in b: those in a, those the entries brought and some spelled like signatures.
  ghost predicate TaggedExactly(at: Relocation, entries: seq<Entry>, n: nat, start: set<string>, a: map<TagRef, Digest>, b: map<TagRef, Digest>)
    requires n <= |entries|
  {
    && a.Keys <= b.Keys
    && (forall x :: Changed(x, a, b) ==> FetchedBy(at, entries, n, start, Candidate(x, b[x])) || SpelledBy(at, entries, n, start, x))
    && (AllNamesApart(entries) ==> forall c :: FetchedBy(at, entries, n, start, c) ==> c.ref in b)
  }

  lemma TaggedStep(at: Relocation, entries: seq<Entry>, i: nat, start: set<string>, a0: map<TagRef, Digest>, a: map<TagRef, Digest>, b: map<TagRef, Digest>)
    requires i < |entries| && entries[i].resolves.Some? && TaggedExactly(at, entries, i, start, a0, a) && a.Keys <= b.Keys
    requires FetchesExactly(at, entries[i].resolves.value, start + AllItems(entries[..i]), a, b)
    ensures TaggedExactly(at, entries, i + 1, start, a0, b)
  {
    forall x | Changed(x, a0, b) ensures FetchedBy(at, entries, i + 1, start, Candidate(x, b[x])) || SpelledBy(at, entries, i + 1, start, x) {
      if Changed(x, a, b) {
        NewlyFetched(at, entries, i, start, x, b[x]);
      } else {
        FetchedEarlier(at, entries, i, start, x, a[x]);
      }
    }
    if AllNamesApart(entries) {
      forall c | FetchedBy(at, entries, i + 1, start, c) ensures c.ref in b {
        var j :| 0 <= j < i + 1 && entries[j].resolves.Some? && Fetches(at, entries[j].resolves.value, start + AllItems(entries[..j]), c);
        assert j < i ==> FetchedBy(at, entries, i, start, c);
      }
    }
  }

  lemma NewlyFetched(at: Relocation, entries: seq<Entry>, i: nat, start: set<string>, x: TagRef, d: Digest)
    requires i < |entries| && entries[i].resolves.Some?
    requires var r, s := entries[i].resolves.value, start + AllItems(entries[..i]); Fetches(at, r, s, Candidate(x, d)) || Spells(at, r, s, x)
    ensures FetchedBy(at, entries, i + 1, start, Candidate(x, d)) || SpelledBy(at, entries, i + 1, start, x)
  {
  }

  lemma FetchedEarlier(at: Relocation, entries: seq<Entry>, i: nat, start: set<string>, x: TagRef, d: Digest)
    requires i < |entries| && (FetchedBy(at, entries, i, start, Candidate(x, d)) || SpelledBy(at, entries, i, start, x))
    ensures FetchedBy(at, entries, i + 1, start, Candidate(x, d)) || SpelledBy(at, entries, i + 1, start, x)
  {
  }

  // What was unsettled when its entry's turn came has arrived.
  ghost predicate AllArrived(at: Relocation, sup: Supply, entries: seq<Entry>, n: nat, start: set<string>, tags: map<TagRef, Digest>, prov: map<RepoName, Provenance>)
    requires n <= |entries|
  {
    forall j :: 0 <= j < n && entries[j].resolves.Some? ==>
      UnsettledArrived(at, sup, entries[j].resolves.value, start + AllItems(entries[..j]), tags, prov)
  }

  lemma StillArrived(at: Relocation, sup: Supply, entries: seq<Entry>, n: nat, start: set<string>, repos: set<RepoName>,
                     a: map<TagRef, Digest>, b: map<TagRef, Digest>, q: map<RepoName, Provenance>, q': map<RepoName, Provenance>)
    requires n <= |entries| && AllArrived(at, sup, entries, n, start, a, q) && a.Keys <= b.Keys && ManagedWithin(repos, q, q')
    ensures AllArrived(at, sup, entries, n, start, b, q')
  {
    forall j | 0 <= j < n && entries[j].resolves.Some?
      ensures UnsettledArrived(at, sup, entries[j].resolves.value, start + AllItems(entries[..j]), b, q')
    {
      assert UnsettledArrived(at, sup, entries[j].resolves.value, start + AllItems(entries[..j]), a, q);
    }
  }

  lemma ArrivedMore(at: Relocation, sup: Supply, entries: seq<Entry>, i: nat, start: set<string>, repos: set<RepoName>,
                    a: map<TagRef, Digest>, b: map<TagRef, Digest>, q: map<RepoName, Provenance>, q': map<RepoName, Provenance>)
    requires i < |entries| && AllArrived(at, sup, entries, i, start, a, q) && a.Keys <= b.Keys && ManagedWithin(repos, q, q')
    requires entries[i].resolves.Some? && UnsettledArrived(at, sup, entries[i].resolves.value, start + AllItems(entries[..i]), b, q')
    ensures AllArrived(at, sup, entries, i + 1, start, b, q')
  {
    StillArrived(at, sup, entries, i, start, repos, a, b, q, q');
    forall j | 0 <= j < i + 1 && entries[j].resolves.Some?
      ensures UnsettledArrived(at, sup, entries[j].resolves.value, start + AllItems(entries[..j]), b, q')
    {
    }
  }

  // Everything the entries want was there or is brought by one of them.
  ghost predicate AllInReach(at: Relocation, entries: seq<Entry>, start: set<string>, a: map<TagRef, Digest>) {
    forall c :: Wanted(at, entries, c) ==> c.ref in a || TagFetchedBy(at, entries, |entries|, start, c.ref)
  }

  // Nothing wanted is spelled like a signature of something brought.
  ghost predicate NoneSpelled(at: Relocation, entries: seq<Entry>, start: set<string>) {
    forall c :: Wanted(at, entries, c) ==> !SpelledBy(at, entries, |entries|, start, c.ref)
  }

  // What a complete run comes to: one tag at a time, and for everything that is wanted.
  ghost predicate RunTags(at: Relocation, entries: seq<Entry>, start: set<string>, a: map<TagRef, Digest>, b: map<TagRef, Digest>) {
    && (forall x :: !SpelledBy(at, entries, |entries|, start, x) ==> (x in b <==> x in a || TagFetchedBy(at, entries, |entries|, start, x)))
    && (forall x :: Changed(x, a, b) && !SpelledBy(at, entries, |entries|, start, x) ==> FetchedBy(at, entries, |entries|, start, Candidate(x, b[x])))
    && (AllInReach(at, entries, start, a) ==> AllTaggedUpTo(at, entries, |entries|, b))
    && (NoneSpelled(at, entries, start) && AllTaggedUpTo(at, entries, |entries|, b) ==> AllInReach(at, entries, start, a))
  }

  lemma TaggedIff(at: Relocation, entries: seq<Entry>, start: set<string>, a: map<TagRef, Digest>, b: map<TagRef, Digest>)
    requires TaggedExactly(at, entries, |entries|, start, a, b) && AllNamesApart(entries)
    ensures RunTags(at, entries, start, a, b)
  {
    forall x | x in b && !SpelledBy(at, entries, |entries|, start, x) ensures x in a || TagFetchedBy(at, entries, |entries|, start, x) {
      assert x !in a ==> Changed(x, a, b);
    }
    if AllInReach(at, entries, start, a) {
      forall i, c | 0 <= i < |entries| && entries[i].resolves.Some? && Wants(at, entries[i].resolves.value, c) ensures c.ref in b {
        assert Wanted(at, entries, c);
      }
    }
    if NoneSpelled(at, entries, start) && AllTaggedUpTo(at, entries, |entries|, b) {
      forall c | Wanted(at, entries, c) ensures c.ref in a || TagFetchedBy(at, entries, |entries|, start, c.ref) {
        var i :| 0 <= i < |entries| && entries[i].resolves.Some? && Wants(at, entries[i].resolves.value, c);
        assert AllTagged(at, entries[i].resolves.value, b);
      }
    }
  }

  lemma {:induction false} StillFromScratch(entries: seq<Entry>, i: nat, start: set<string>, settled: set<string>)
    requires i < |entries| && entries[i].resolves.Some? && ItemsApart(entries, start) && settled <= start + AllItems(entries[..i])
    ensures FromScratch(entries[i].resolves.value, settled)
  {
    var r := entries[i].resolves.value;
    forall e | e in entries[..i] && e.resolves.Some? ensures RecipeItems(r) !! RecipeItems(e.resolves.value) {
      var j :| 0 <= j < i && entries[j] == e;
    }
    assert FromScratch(r, start);
    forall k | 0 <= k < |r.ingredients| ensures !MayCountAsSettled(KeyFor(r), r.ingredients, k, settled) {
      assert r.ingredients[k] in r.ingredients;
      assert Item(KeyFor(r), r.ingredients[k].name) in RecipeItems(r);
    }
  }

  // Items that are apart: every entry brings all it wants.
  lemma ApartIsInReach(at: Relocation, entries: seq<Entry>, start: set<string>, a: map<TagRef, Digest>)
    requires ItemsApart(entries, start)
    ensures AllNamesApart(entries) && AllInReach(at, entries, start, a)
  {
    forall i | 0 <= i < |entries| && entries[i].resolves.Some? ensures NamesApart(entries[i].resolves.value) {
      ScratchNames(entries[i].resolves.value, start);
    }
    forall c | Wanted(at, entries, c) ensures TagFetchedBy(at, entries, |entries|, start, c.ref) {
      var i :| 0 <= i < |entries| && entries[i].resolves.Some? && Wants(at, entries[i].resolves.value, c);
      StillFromScratch(entries, i, start, start + AllItems(entries[..i]));
      ScratchFetchesAll(at, entries[i].resolves.value, start + AllItems(entries[..i]), c);
      assert FetchedBy(at, entries, |entries|, start, c);
    }
  }

  lemma RunTagged(at: Relocation, entries: seq<Entry>, start: set<string>, a: map<TagRef, Digest>, b: map<TagRef, Digest>, complete: bool)
    requires complete ==> TaggedExactly(at, entries, |entries|, start, a, b)
    ensures complete && AllNamesApart(entries) ==> RunTags(at, entries, start, a, b)
    ensures complete && ItemsApart(entries, start) ==> AllTaggedUpTo(at, entries, |entries|, b)
  {
    if complete && ItemsApart(entries, start) {
      ApartIsInReach(at, entries, start, a);
    }
    if complete && AllNamesApart(entries) {
      TaggedIff(at, entries, start, a, b);
    }
  }

  lemma ReposAmong(at: Relocation, entries: seq<Entry>, i: nat)
    requires i < |entries|
    ensures entries[i].resolves.Some? ==> RecipeRepos(at, entries[i].resolves.value) <= AllRepos(at, entries)
  {
    assert entries[i] in entries;
  }

  lemma ItemsAfter(entries: seq<Entry>, i: nat)
    requires i < |entries| && entries[i].resolves.Some?
    ensures AllItems(entries[..i + 1]) == AllItems(entries[..i]) + RecipeItems(entries[i].resolves.value)
  {
    assert entries[..i + 1] == entries[..i] + [entries[i]];
  }

  // Two recipes of one name and version whose ingredients go by the same names, from different places.
  lemma OneKeyExample() returns (at: Relocation, a: Recipe, b: Recipe, c: Candidate)
    ensures RecipeItems(b) <= RecipeItems(a) && Located(at, a) && Located(at, b)
    ensures KeyFor(a) == KeyFor(b) && Wants(at, b, c) && c.ref.repo !in RecipeRepos(at, a)
  {
    at := ref => Some(ref);
    var north, south := Ingredient("web", "n", "1", ""), Ingredient("web", "south", "1", "");
    a, b := Recipe("shop", "1", "nn", "", [north]), Recipe("shop", "1", "ss", "", [south]);
    c := Candidate(TagRef("south", "1"), "");
    assert south in b.ingredients && IsCandidate(RowOf(at, south), c);
    assert |"south"| != |"n"| && |"south"| != |"nn"|;
    assert RowOf(at, north).repo == "n" && a.ingredients[0] == north;
    assert forall ing :: ing in a.ingredients ==> ing == north;
    assert b.ingredients[0] == south && forall ing :: ing in b.ingredients ==> ing == south;
    assert ItemsOf(KeyFor(b), b.ingredients) == {Item(KeyFor(a), "web")} == ItemsOf(KeyFor(a), a.ingredients);
  }
}
