/**
 What a recipe wants, what its record says, and which wanted tags a prune can take.
 */
module Retention {
  import opened Wrappers
  import opened Registry
  import opened Recipes
  import opened SignatureTags
  import opened Prune

  // A Retriever entry, with the version its expression resolves to and what resolving, verifying and
  // loading it comes to in this run.
  datatype Entry = Entry(name: string, version: Option<string>, resolves: Option<Recipe>)

  function Resolving(r: Recipe): Entry {
    Entry(r.name, Some(r.version), Some(r))
  }

  // Loading established that a recipe is what its place says.
  predicate Coherent(e: Entry) {
    e.resolves.Some? ==> e.version == Some(e.resolves.value.version) && e.name == e.resolves.value.name
  }

  /******* What a recipe wants, and what its record says *******/

  function RowOf(at: Relocation, ing: Ingredient): IngredientRecord {
    IngredientRecord(ing.name, if at(ing.ref).Some? then at(ing.ref).value else "", ing.version, ing.digest)
  }

  function KeyFor(r: Recipe): string {
    Key(r.name, r.version)
  }

  // The version tags a recipe is for, with the digests they pin.
  ghost predicate Wants(at: Relocation, r: Recipe, c: Candidate) {
    || (exists ing :: ing in r.ingredients && IsCandidate(RowOf(at, ing), c))
    || (at(r.nominal).Some? && r.version != "" && c == Candidate(TagRef(at(r.nominal).value, r.version), r.digest))
  }

  // The rows that say where they landed.
  function Placed(rows: seq<IngredientRecord>): (kept: seq<IngredientRecord>)
    ensures forall row :: row in kept <==> row in rows && row.repo != ""
  {
    if rows == [] then []
    else
      var rest, row := Placed(rows[..|rows| - 1]), rows[|rows| - 1];
      assert rows == rows[..|rows| - 1] + [row];
      if row.repo != "" then rest + [row] else rest
  }

  function AllRows(at: Relocation, r: Recipe): seq<IngredientRecord> {
    seq(|r.ingredients|, i requires 0 <= i < |r.ingredients| => RowOf(at, r.ingredients[i]))
  }

  function FullRecord(at: Relocation, r: Recipe): Record {
    Record(r.name, r.version, r.nominal, r.digest, Placed(AllRows(at, r)))
  }

  // A record with every ingredient in it refers to exactly what its recipe wants.
  lemma RecordWants(at: Relocation, r: Recipe, c: Candidate)
    ensures c in Candidates(at, FullRecord(at, r)) <==> Wants(at, r, c)
  {
    var rows := AllRows(at, r);
    var cs := IngredientCandidates(Placed(rows));
    if c in cs {
      var row :| row in Placed(rows) && IsCandidate(row, c);
      var i :| 0 <= i < |rows| && rows[i] == row;
      assert r.ingredients[i] in r.ingredients;
    }
    if exists ing :: ing in r.ingredients && IsCandidate(RowOf(at, ing), c) {
      var ing :| ing in r.ingredients && IsCandidate(RowOf(at, ing), c);
      var i :| 0 <= i < |r.ingredients| && r.ingredients[i] == ing;
      assert rows[i] == RowOf(at, ing);
      assert rows[i] in Placed(rows);
    }
  }

  /******* What a prune of a graph takes away *******/

  ghost function Stale(graph: map<string, Record>, keys: set<string>): set<Record> {
    set k | k in graph && k !in keys :: graph[k]
  }

  ghost function Kept(graph: map<string, Record>, keys: set<string>): set<Record> {
    set k | k in graph && k in keys :: graph[k]
  }

  // x is what a prune of this graph takes away.
  ghost predicate Goes(at: Relocation, graph: map<string, Record>, keys: set<string>, prov: map<RepoName, Provenance>, x: TagRef) {
    Unlinks(at, Stale(graph, keys), Referenced(at, Kept(graph, keys)), prov, x)
  }

  /******* What the graph says after a complete run *******/

  // The recipe of the last entry with a key.
  function LastWith(entries: seq<Entry>, k: string): Option<Recipe> {
    if entries == [] then None
    else
      var e := entries[|entries| - 1];
      if e.resolves.Some? && KeyFor(e.resolves.value) == k then e.resolves else LastWith(entries[..|entries| - 1], k)
  }

  predicate AllKept(entries: seq<Entry>, keys: set<string>) {
    forall i :: 0 <= i < |entries| ==> entries[i].resolves.Some? && KeyFor(entries[i].resolves.value) in keys
  }

  // Every entry resolved; the kept keys are theirs; each is recorded in full, by its last entry.
  ghost predicate Recorded(at: Relocation, entries: seq<Entry>, graph: map<string, Record>, keys: set<string>) {
    && AllKept(entries, keys)
    && (forall k :: k in keys <==> LastWith(entries, k).Some?)
    && (forall k :: k in keys ==> k in graph && graph[k] == FullRecord(at, LastWith(entries, k).value))
  }

  lemma RecordedStep(at: Relocation, entries: seq<Entry>, i: nat, g: map<string, Record>, keys: set<string>,
                     g': map<string, Record>, keys': set<string>)
    requires i < |entries| && Recorded(at, entries[..i], g, keys) && entries[i].resolves.Some?
    requires var r := entries[i].resolves.value;
             && Others(KeyFor(r), g, g', keys, keys') && KeyFor(r) in keys'
             && KeyFor(r) in g' && g'[KeyFor(r)] == FullRecord(at, r)
    ensures Recorded(at, entries[..i + 1], g', keys')
  {
    var r := entries[i].resolves.value;
    forall k
      ensures k in keys' <==> LastWith(entries[..i + 1], k).Some?
      ensures k in keys' ==> k in g' && g'[k] == FullRecord(at, LastWith(entries[..i + 1], k).value)
    {
      LastWithStep(entries, i, k);
      assert k != KeyFor(r) ==> (k in keys' <==> k in keys);
      assert k in keys ==> k in g && g[k] == FullRecord(at, LastWith(entries[..i], k).value);
    }
    EntriesKept(entries, i, keys, keys');
  }

  lemma EntriesKept(entries: seq<Entry>, i: nat, keys: set<string>, keys': set<string>)
    requires i < |entries| && keys <= keys' && entries[i].resolves.Some? && KeyFor(entries[i].resolves.value) in keys'
    requires AllKept(entries[..i], keys)
    ensures AllKept(entries[..i + 1], keys')
  {
    forall j | 0 <= j <= i ensures entries[j].resolves.Some? && KeyFor(entries[j].resolves.value) in keys' {
      assert j < i ==> entries[..i][j] == entries[j];
    }
  }

  lemma LastWithStep(entries: seq<Entry>, i: nat, k: string)
    requires i < |entries|
    ensures LastWith(entries[..i + 1], k)
            == if entries[i].resolves.Some? && KeyFor(entries[i].resolves.value) == k then entries[i].resolves
               else LastWith(entries[..i], k)
  {
    assert entries[..i + 1][..i] == entries[..i];
  }

  // Only one key of the graph and of the kept keys may have changed.
  ghost predicate Others(k: string, g: map<string, Record>, g': map<string, Record>, keys: set<string>, keys': set<string>) {
    && keys <= keys' <= keys + {k}
    && (forall j :: j != k ==> (j in g' <==> j in g))
    && (forall j :: j != k && j in g' ==> g'[j] == g[j])
    && (k in g ==> k in g')
    && (k !in keys' ==> g' == g)
  }

  // The graph changed at kept keys only.
  ghost predicate SameBut(keys: set<string>, g: map<string, Record>, g': map<string, Record>) {
    forall k :: k !in keys ==> (k in g' <==> k in g) && (k in g ==> g'[k] == g[k])
  }

  /******* Which wanted tags a prune can take *******/

  ghost predicate Wanted(at: Relocation, entries: seq<Entry>, c: Candidate) {
    exists i :: 0 <= i < |entries| && entries[i].resolves.Some? && Wants(at, entries[i].resolves.value, c)
  }

  // The last entry of some key wants x.
  ghost predicate Current(at: Relocation, entries: seq<Entry>, x: TagRef) {
    exists k, c :: LastWith(entries, k).Some? && Wants(at, LastWith(entries, k).value, c) && c.ref == x
  }

  // After a complete run the tags a prune spares are those of each key's last entry.
  lemma ReferencedIsCurrent(at: Relocation, entries: seq<Entry>, graph: map<string, Record>, keys: set<string>, x: TagRef)
    requires Recorded(at, entries, graph, keys)
    ensures x in Referenced(at, Kept(graph, keys)) <==> Current(at, entries, x)
  {
    if x in Referenced(at, Kept(graph, keys)) {
      var r, c :| r in Kept(graph, keys) && c in Candidates(at, r) && x == c.ref;
      var k :| k in graph && k in keys && graph[k] == r;
      RecordWants(at, LastWith(entries, k).value, c);
    }
    if Current(at, entries, x) {
      var k, c :| LastWith(entries, k).Some? && Wants(at, LastWith(entries, k).value, c) && c.ref == x;
      RecordWants(at, LastWith(entries, k).value, c);
      assert graph[k] in Kept(graph, keys);
    }
  }

  // A stale record brought c into a recipe-managed repository and no current recipe wants it.
  ghost predicate Leftover(at: Relocation, entries: seq<Entry>, graph: map<string, Record>, keys: set<string>,
                           prov: map<RepoName, Provenance>, c: Candidate) {
    && (exists r :: r in Stale(graph, keys) && c in Candidates(at, r))
    && !Current(at, entries, c.ref) && c.ref.repo in prov && prov[c.ref.repo] == RecipeManaged
  }

  // The two ways to lose a tag: another entry of the same key took over its record, or it is spelled
  // like a signature of something that goes.
  ghost predicate LosableTag(at: Relocation, entries: seq<Entry>, graph: map<string, Record>, keys: set<string>,
                             prov: map<RepoName, Provenance>, x: TagRef) {
    || (exists c :: Leftover(at, entries, graph, keys, prov, c) && c.ref == x)
    || (exists c :: Leftover(at, entries, graph, keys, prov, c) && x in SignatureRefs(c.ref.repo, c.digest))
  }

  lemma WantedLostIff(at: Relocation, entries: seq<Entry>, graph: map<string, Record>, keys: set<string>,
                      prov: map<RepoName, Provenance>, x: TagRef)
    requires Recorded(at, entries, graph, keys)
    ensures Goes(at, graph, keys, prov, x) <==> LosableTag(at, entries, graph, keys, prov, x)
  {
    var kept := Referenced(at, Kept(graph, keys));
    if Goes(at, graph, keys, prov, x) {
      var r, c :| r in Stale(graph, keys) && c in Candidates(at, r) && Condemned(c, kept, prov) && Takes(c, x);
      ReferencedIsCurrent(at, entries, graph, keys, c.ref);
      assert Leftover(at, entries, graph, keys, prov, c);
    }
    if LosableTag(at, entries, graph, keys, prov, x) {
      var c :| Leftover(at, entries, graph, keys, prov, c) && Takes(c, x);
      ReferencedIsCurrent(at, entries, graph, keys, c.ref);
      var r :| r in Stale(graph, keys) && c in Candidates(at, r);
      assert Condemned(c, kept, prov);
    }
  }

  // Entries that resolve to the same name and version want the same tags.
  ghost predicate KeysAgree(at: Relocation, entries: seq<Entry>) {
    forall i, j | 0 <= i < |entries| && 0 <= j < |entries| && SameKey(entries[i], entries[j]) ::
      forall c :: Wants(at, entries[i].resolves.value, c) ==> WantsRef(at, entries[j].resolves.value, c.ref)
  }

  predicate SameKey(e: Entry, e': Entry) {
    e.resolves.Some? && e'.resolves.Some? && KeyFor(e.resolves.value) == KeyFor(e'.resolves.value)
  }

  ghost predicate WantsRef(at: Relocation, r: Recipe, x: TagRef) {
    exists c :: Wants(at, r, c) && c.ref == x
  }

  lemma {:induction false} LastWithIsEntry(entries: seq<Entry>, k: string) returns (j: nat)
    requires LastWith(entries, k).Some?
    ensures j < |entries| && entries[j].resolves == LastWith(entries, k) && KeyFor(entries[j].resolves.value) == k
  {
    var n := |entries| - 1;
    if entries[n].resolves.Some? && KeyFor(entries[n].resolves.value) == k {
      j := n;
    } else {
      j := LastWithIsEntry(entries[..n], k);
    }
  }

  // Then everything any entry wants is spared, and only a signature-like spelling can lose it.
  lemma WantedIsCurrent(at: Relocation, entries: seq<Entry>, graph: map<string, Record>, keys: set<string>, prov: map<RepoName, Provenance>, c: Candidate)
    requires Recorded(at, entries, graph, keys) && KeysAgree(at, entries) && Wanted(at, entries, c)
    ensures Current(at, entries, c.ref)
    ensures Goes(at, graph, keys, prov, c.ref) <==>
              exists c' :: Leftover(at, entries, graph, keys, prov, c') && c.ref in SignatureRefs(c'.ref.repo, c'.digest)
  {
    WantedLostIff(at, entries, graph, keys, prov, c.ref);
    var i :| 0 <= i < |entries| && entries[i].resolves.Some? && Wants(at, entries[i].resolves.value, c);
    var k := KeyFor(entries[i].resolves.value);
    var j := LastWithIsEntry(entries, k);
    assert SameKey(entries[i], entries[j]);
    assert WantsRef(at, entries[j].resolves.value, c.ref);
    var c' :| Wants(at, entries[j].resolves.value, c') && c'.ref == c.ref;
    assert LastWith(entries, k).Some? && Wants(at, LastWith(entries, k).value, c');
  }

  // The signatures of kept content, in either layout, go exactly when something left over in the same
  // repository pins the same digest, or is itself tagged like that signature.
  lemma KeptSignatureLostIff(at: Relocation, entries: seq<Entry>, graph: map<string, Record>, keys: set<string>,
                             prov: map<RepoName, Provenance>, repo: RepoName, d: Digest, t: Tag)
    requires Recorded(at, entries, graph, keys) && Sha256(d) && t in SignatureTagsOf(d)
    requires forall r, c :: r in Stale(graph, keys) && c in Candidates(at, r) ==> Sha256(c.digest)
    ensures Goes(at, graph, keys, prov, TagRef(repo, t))
            <==> exists c :: Leftover(at, entries, graph, keys, prov, c) && c.ref.repo == repo && (c.digest == d || c.ref.tag == t)
  {
    var x := TagRef(repo, t);
    WantedLostIff(at, entries, graph, keys, prov, x);
    forall c | Leftover(at, entries, graph, keys, prov, c)
      ensures Takes(c, x) <==> c.ref.repo == repo && (c.digest == d || c.ref.tag == t)
    {
      SignatureOfOne(repo, d, t, c);
    }
  }

  lemma SignatureOfOne(repo: RepoName, d: Digest, t: Tag, c: Candidate)
    requires Sha256(d) && Sha256(c.digest) && t in SignatureTagsOf(d)
    ensures Takes(c, TagRef(repo, t)) <==> c.ref.repo == repo && (c.digest == d || c.ref.tag == t)
  {
    if c.digest != d {
      SignatureTagsApart(c.digest, d);
    }
  }

  // Two entries of one name and version: the second takes over the record, and what only the first
  // wants goes with the first stale record that mentions it.
  lemma TakenOverIsLost(at: Relocation, a: Recipe, b: Recipe, stale: Record, prov: map<RepoName, Provenance>, c: Candidate)
    requires KeyFor(a) == KeyFor(b) != KeyOf(stale)
    requires Wants(at, a, c) && !WantsRef(at, b, c.ref) && c in Candidates(at, stale)
    requires c.ref.repo in prov && prov[c.ref.repo] == RecipeManaged
    ensures var entries, graph := [Resolving(a), Resolving(b)], map[KeyFor(b) := FullRecord(at, b), KeyOf(stale) := stale];
            && Recorded(at, entries, graph, {KeyFor(b)}) && Wanted(at, entries, c)
            && Goes(at, graph, {KeyFor(b)}, prov, c.ref)
  {
    var entries, graph := [Resolving(a), Resolving(b)], map[KeyFor(b) := FullRecord(at, b), KeyOf(stale) := stale];
    var keys := {KeyFor(b)};
    forall k ensures LastWith(entries, k) == if k == KeyFor(b) then Some(b) else None {
      LastWithStep(entries, 0, k);
      LastWithStep(entries, 1, k);
      assert entries[..2] == entries;
    }
    assert entries[0].resolves == Some(a);
    WantedLostIff(at, entries, graph, keys, prov, c.ref);
    assert graph[KeyOf(stale)] in Stale(graph, keys);
    assert Leftover(at, entries, graph, keys, prov, c);
  }

  // Such recipes exist: the same name and version in two cookbooks.
  lemma TakenOverExample() returns (at: Relocation, a: Recipe, b: Recipe, stale: Record, c: Candidate)
    ensures KeyFor(a) == KeyFor(b) != KeyOf(stale)
    ensures Wants(at, a, c) && !WantsRef(at, b, c.ref) && c in Candidates(at, stale)
  {
    at := ref => Some(ref);
    var web := Ingredient("web", "library/web", "1.0", "sha256:aa");
    a := Recipe("shop", "1", "north/shop", "sha256:bb", [web]);
    b := Recipe("shop", "1", "south/shop", "sha256:cc", []);
    stale := Record("site", "1", "north/site", "sha256:dd", [RowOf(at, web)]);
    c := Candidate(TagRef("library/web", "1.0"), "sha256:aa");
    assert KeyOf(stale)[1] != KeyFor(b)[1];
    assert web in a.ingredients && IsCandidate(RowOf(at, web), c);
    assert RowOf(at, web) in stale.ingredients;
    assert |"1.0"| != |"1"|;
  }

  /******* Signatures that take kept tags along *******/

  // One entry and one stale record: what is spelled like a signature of something the record leaves
  // behind goes with it, wanted or not.
  lemma SignatureTakes(at: Relocation, a: Recipe, stale: Record, prov: map<RepoName, Provenance>, c: Candidate, x: TagRef)
    requires KeyFor(a) != KeyOf(stale) && c in Candidates(at, stale) && !WantsRef(at, a, c.ref)
    requires c.ref.repo in prov && prov[c.ref.repo] == RecipeManaged && x in SignatureRefs(c.ref.repo, c.digest)
    ensures var entries, graph := [Resolving(a)], map[KeyFor(a) := FullRecord(at, a), KeyOf(stale) := stale];
            Recorded(at, entries, graph, {KeyFor(a)}) && Goes(at, graph, {KeyFor(a)}, prov, x)
  {
    var entries, graph := [Resolving(a)], map[KeyFor(a) := FullRecord(at, a), KeyOf(stale) := stale];
    var keys := {KeyFor(a)};
    OneEntry(at, a, graph);
    assert graph[KeyOf(stale)] in Stale(graph, keys);
    ReferencedIsCurrent(at, entries, graph, keys, c.ref);
    OneEntryWants(at, a, c.ref);
    assert Condemned(c, Referenced(at, Kept(graph, keys)), prov) && Takes(c, x);
  }

  lemma OneEntry(at: Relocation, a: Recipe, graph: map<string, Record>)
    requires KeyFor(a) in graph && graph[KeyFor(a)] == FullRecord(at, a)
    ensures Recorded(at, [Resolving(a)], graph, {KeyFor(a)})
  {
    forall k ensures LastWith([Resolving(a)], k) == if k == KeyFor(a) then Some(a) else None {
      LastWithStep([Resolving(a)], 0, k);
      assert [Resolving(a)][..1] == [Resolving(a)];
    }
  }

  lemma OneEntryWants(at: Relocation, a: Recipe, x: TagRef)
    ensures Current(at, [Resolving(a)], x) <==> WantsRef(at, a, x)
  {
    forall k ensures LastWith([Resolving(a)], k) == if k == KeyFor(a) then Some(a) else None {
      LastWithStep([Resolving(a)], 0, k);
      assert [Resolving(a)][..1] == [Resolving(a)];
    }
    if WantsRef(at, a, x) {
      var c :| Wants(at, a, c) && c.ref == x;
      assert LastWith([Resolving(a)], KeyFor(a)).value == a;
    }
  }

  // Relocations of one repository only.
  function OnlyLib(ref: string): Option<RepoName> {
    if ref == "lib" then Some("lib") else None
  }

  // A kept tag spelled like the fallback tag of a digest that only a stale record pins.
  lemma SpelledTagExample() returns (a: Recipe, stale: Record, c: Candidate, x: TagRef)
    ensures KeyFor(a) != KeyOf(stale) && c in Candidates(OnlyLib, stale) && !WantsRef(OnlyLib, a, c.ref)
    ensures c.ref.repo == "lib" && x in SignatureRefs(c.ref.repo, c.digest) && WantsRef(OnlyLib, a, x)
  {
    var spelled, gone := Ingredient("web", "lib", "sha256-aa", "sha256:bb"), Ingredient("web", "lib", "1", "sha256:aa");
    a, stale, c, x := KeptAndStale(spelled, gone);
    assert "sha256:aa"[7..] == "aa" && FallbackTag("sha256:aa") == "sha256-aa";
  }

  // A kept digest that a stale record pins under another tag: its signature goes.
  lemma SharedPinExample() returns (a: Recipe, stale: Record, c: Candidate, x: TagRef)
    ensures KeyFor(a) != KeyOf(stale) && c in Candidates(OnlyLib, stale) && !WantsRef(OnlyLib, a, c.ref)
    ensures c.ref.repo == "lib" && TagRef("lib", SignatureTag(c.digest)) in SignatureRefs(c.ref.repo, c.digest)
    ensures WantsRef(OnlyLib, a, x) && Wants(OnlyLib, a, Candidate(x, c.digest))
  {
    var kept, gone := Ingredient("web", "lib", "22", "sha256:aa"), Ingredient("web", "lib", "1", "sha256:aa");
    a, stale, c, x := KeptAndStale(kept, gone);
    assert "sha256:aa"[..7] == "sha256:";
  }

  // A recipe with one ingredient, and a record of an older version with another.
  lemma KeptAndStale(kept: Ingredient, gone: Ingredient) returns (a: Recipe, stale: Record, c: Candidate, x: TagRef)
    requires kept.ref == gone.ref == "lib" && kept.version != gone.version && kept.version != "" && gone.version != ""
    ensures KeyFor(a) != KeyOf(stale) && !WantsRef(OnlyLib, a, c.ref)
    ensures c == Candidate(TagRef("lib", gone.version), gone.digest) && x == TagRef("lib", kept.version)
    ensures Wants(OnlyLib, a, Candidate(x, kept.digest)) && WantsRef(OnlyLib, a, x)
    ensures forall y :: y in Candidates(OnlyLib, stale) <==> y == c
  {
    a, stale := Recipe("shop", "2", "", "", [kept]), Record("shop", "1", "", "", [RowOf(OnlyLib, gone)]);
    c, x := Candidate(TagRef("lib", gone.version), gone.digest), TagRef("lib", kept.version);
    assert KeyFor(a)[5] == '2' && KeyOf(stale)[5] == '1';
    assert kept in a.ingredients && IsCandidate(RowOf(OnlyLib, kept), Candidate(x, kept.digest));
    assert RowOf(OnlyLib, gone) in stale.ingredients && IsCandidate(RowOf(OnlyLib, gone), c);
  }

  /******* The confirmation and the run *******/

  // The keys a projection keeps: names and versions of the entries, nothing fetched.
  function ProjectedKeys(entries: seq<Entry>): set<string> {
    set e | e in entries && e.version.Some? :: Key(e.name, e.version.value)
  }

  // A row of the confirmation or of the report.
  ghost predicate Listed(at: Relocation, graph: map<string, Record>, keys: set<string>, prov: map<RepoName, Provenance>, row: Row) {
    exists r, c :: r in Stale(graph, keys) && c in Candidates(at, r) && Condemned(c, Referenced(at, Kept(graph, keys)), prov)
                   && row == Row(c.ref, c.digest, KeyOf(r))
  }

  lemma RunKeysAreProjected(at: Relocation, entries: seq<Entry>, graph: map<string, Record>, keys: set<string>)
    requires Recorded(at, entries, graph, keys) && forall e :: e in entries ==> Coherent(e)
    ensures keys == ProjectedKeys(entries)
  {
    forall k | k in keys ensures k in ProjectedKeys(entries) {
      var j := LastWithIsEntry(entries, k);
      assert entries[j] in entries && Coherent(entries[j]);
    }
    forall e | e in entries && e.version.Some? ensures Key(e.name, e.version.value) in keys {
      var i :| 0 <= i < |entries| && entries[i] == e;
    }
  }

  // What a listed row stands for: its tag and the signatures of its digest.
  predicate RowTakes(row: Row, x: TagRef) {
    x == row.ref || x in SignatureRefs(row.ref.repo, row.digest)
  }

  // A prune takes exactly what its rows stand for.
  lemma GoesIsListed(at: Relocation, graph: map<string, Record>, keys: set<string>, prov: map<RepoName, Provenance>, x: TagRef)
    ensures Goes(at, graph, keys, prov, x) <==> exists row :: Listed(at, graph, keys, prov, row) && RowTakes(row, x)
  {
    var kept := Referenced(at, Kept(graph, keys));
    if Goes(at, graph, keys, prov, x) {
      var r, c :| r in Stale(graph, keys) && c in Candidates(at, r) && Condemned(c, kept, prov) && Takes(c, x);
      assert Listed(at, graph, keys, prov, Row(c.ref, c.digest, KeyOf(r)));
      assert RowTakes(Row(c.ref, c.digest, KeyOf(r)), x);
    }
    if row :| Listed(at, graph, keys, prov, row) && RowTakes(row, x) {
      var r, c :| r in Stale(graph, keys) && c in Candidates(at, r) && Condemned(c, kept, prov) && row == Row(c.ref, c.digest, KeyOf(r));
      assert Takes(c, x);
    }
  }

  predicate Managed(prov: map<RepoName, Provenance>, repo: RepoName) {
    repo in prov && prov[repo] == RecipeManaged
  }

  // Every row of the run is a row of the confirmation.
  ghost predicate Confirmed(at: Relocation, entries: seq<Entry>, g: map<string, Record>, g': map<string, Record>, keys: set<string>,
                            prov: map<RepoName, Provenance>, prov': map<RepoName, Provenance>) {
    forall row :: Listed(at, g', keys, prov', row) ==> Listed(at, g, ProjectedKeys(entries), prov, row)
  }

  // What a stale record leaves over after the run was, before it, in a recipe-managed repository and
  // not referred to by the old record of anything kept.
  ghost predicate NothingNewlyLeftOver(at: Relocation, entries: seq<Entry>, g: map<string, Record>, keys: set<string>,
                                       prov: map<RepoName, Provenance>, prov': map<RepoName, Provenance>) {
    forall r, c :: r in Stale(g, keys) && c in Candidates(at, r) && !Current(at, entries, c.ref) && Managed(prov', c.ref.repo) ==>
      c.ref !in Referenced(at, Kept(g, keys)) && Managed(prov, c.ref.repo)
  }

  // Exactly then the confirmation covers the run.
  lemma ConfirmedIff(at: Relocation, entries: seq<Entry>, g: map<string, Record>, g': map<string, Record>, keys: set<string>,
                     prov: map<RepoName, Provenance>, prov': map<RepoName, Provenance>)
    requires Recorded(at, entries, g', keys) && SameBut(keys, g, g') && forall e :: e in entries ==> Coherent(e)
    ensures Confirmed(at, entries, g, g', keys, prov, prov') <==> NothingNewlyLeftOver(at, entries, g, keys, prov, prov')
  {
    RunKeysAreProjected(at, entries, g', keys);
    SameStale(g, g', keys);
    forall x ensures x in Referenced(at, Kept(g', keys)) <==> Current(at, entries, x) {
      ReferencedIsCurrent(at, entries, g', keys, x);
    }
    ConfirmedWhen(at, entries, g, g', keys, prov, prov');
  }

  lemma ConfirmedWhen(at: Relocation, entries: seq<Entry>, g: map<string, Record>, g': map<string, Record>, keys: set<string>,
                      prov: map<RepoName, Provenance>, prov': map<RepoName, Provenance>)
    requires keys == ProjectedKeys(entries) && Stale(g', keys) == Stale(g, keys)
    requires forall x :: x in Referenced(at, Kept(g', keys)) <==> Current(at, entries, x)
    ensures Confirmed(at, entries, g, g', keys, prov, prov') <==> NothingNewlyLeftOver(at, entries, g, keys, prov, prov')
  {
    if Confirmed(at, entries, g, g', keys, prov, prov') {
      forall r, c | r in Stale(g, keys) && c in Candidates(at, r) && !Current(at, entries, c.ref) && Managed(prov', c.ref.repo)
        ensures c.ref !in Referenced(at, Kept(g, keys)) && Managed(prov, c.ref.repo)
      {
        ConfirmedCandidate(at, entries, g, g', keys, prov, prov', r, c);
      }
    } else {
      var row :| Listed(at, g', keys, prov', row) && !Listed(at, g, keys, prov, row);
      UnconfirmedRow(at, g, g', keys, prov, prov', row);
    }
  }

  lemma ConfirmedCandidate(at: Relocation, entries: seq<Entry>, g: map<string, Record>, g': map<string, Record>, keys: set<string>,
                           prov: map<RepoName, Provenance>, prov': map<RepoName, Provenance>, r: Record, c: Candidate)
    requires Confirmed(at, entries, g, g', keys, prov, prov') && keys == ProjectedKeys(entries)
    requires r in Stale(g', keys) && c in Candidates(at, r)
    requires c.ref !in Referenced(at, Kept(g', keys)) && Managed(prov', c.ref.repo)
    ensures c.ref !in Referenced(at, Kept(g, keys)) && Managed(prov, c.ref.repo)
  {
    assert Condemned(c, Referenced(at, Kept(g', keys)), prov');
    assert Listed(at, g', keys, prov', Row(c.ref, c.digest, KeyOf(r)));
  }

  lemma UnconfirmedRow(at: Relocation, g: map<string, Record>, g': map<string, Record>, keys: set<string>,
                       prov: map<RepoName, Provenance>, prov': map<RepoName, Provenance>, row: Row)
    requires Stale(g', keys) == Stale(g, keys) && Listed(at, g', keys, prov', row) && !Listed(at, g, keys, prov, row)
    ensures exists r, c :: r in Stale(g, keys) && c in Candidates(at, r) && c.ref !in Referenced(at, Kept(g', keys)) && Managed(prov', c.ref.repo)
                           && (c.ref in Referenced(at, Kept(g, keys)) || !Managed(prov, c.ref.repo))
  {
    var r, c :| r in Stale(g', keys) && c in Candidates(at, r) && Condemned(c, Referenced(at, Kept(g', keys)), prov') && row == Row(c.ref, c.digest, KeyOf(r));
    assert !Condemned(c, Referenced(at, Kept(g, keys)), prov);
  }

  lemma SameStale(g: map<string, Record>, g': map<string, Record>, keys: set<string>)
    requires SameBut(keys, g, g')
    ensures Stale(g', keys) == Stale(g, keys)
  {
    forall k | k !in keys && k in g ensures k in g' && g'[k] == g[k] {}
    forall k | k !in keys && k in g' ensures k in g && g'[k] == g[k] {}
  }

  // In particular when the records of what is kept did not change and no repository became
  // recipe-managed in between: everything the run unlinks is a tag of a confirmed row or a signature of one.
  lemma RunRemovesConfirmed(at: Relocation, entries: seq<Entry>, g: map<string, Record>, g': map<string, Record>, keys: set<string>,
                            prov: map<RepoName, Provenance>, prov': map<RepoName, Provenance>, x: TagRef)
    requires Recorded(at, entries, g', keys) && SameBut(keys, g, g') && forall e :: e in entries ==> Coherent(e)
    requires forall k :: k in keys && k in g ==> g'[k] == g[k]
    requires forall repo :: Managed(prov', repo) ==> Managed(prov, repo)
    requires Goes(at, g', keys, prov', x)
    ensures Confirmed(at, entries, g, g', keys, prov, prov')
    ensures exists row :: Listed(at, g, ProjectedKeys(entries), prov, row) && RowTakes(row, x)
  {
    var kept, kept' := Referenced(at, Kept(g, keys)), Referenced(at, Kept(g', keys));
    assert kept <= kept';
    forall y ensures y in kept' <==> Current(at, entries, y) {
      ReferencedIsCurrent(at, entries, g', keys, y);
    }
    ConfirmedIff(at, entries, g, g', keys, prov, prov');
    GoesIsListed(at, g', keys, prov', x);
  }

  // A new version that shares a tag with a stale one: confirmed for removal, not removed.
  lemma ConfirmedButKept() returns (a: Recipe, stale: Record, x: TagRef)
    ensures var g, prov := map[KeyOf(stale) := stale], map["lib" := RecipeManaged];
            var g', keys := g[KeyFor(a) := FullRecord(OnlyLib, a)], {KeyFor(a)};
            && Recorded(OnlyLib, [Resolving(a)], g', keys) && SameBut(keys, g, g')
            && Goes(OnlyLib, g, keys, prov, x) && !Goes(OnlyLib, g', keys, prov, x)
  {
    var shared := Ingredient("web", "lib", "1", "");
    a, stale := Recipe("shop", "2", "", "", [shared]), Record("shop", "1", "", "", [RowOf(OnlyLib, shared)]);
    x := TagRef("lib", "1");
    var c := Candidate(x, "");
    var g, prov, keys := map[KeyOf(stale) := stale], map["lib" := RecipeManaged], {KeyFor(a)};
    var g' := g[KeyFor(a) := FullRecord(OnlyLib, a)];
    assert KeyFor(a)[5] == '2' && KeyOf(stale)[5] == '1';
    assert shared in a.ingredients && IsCandidate(RowOf(OnlyLib, shared), c);
    assert RowOf(OnlyLib, shared) in stale.ingredients;
    assert forall y :: y in Candidates(OnlyLib, stale) <==> y == c;
    OneEntry(OnlyLib, a, g');
    assert g[KeyOf(stale)] in Stale(g, keys) && Kept(g, keys) == {};
    assert Condemned(c, Referenced(OnlyLib, Kept(g, keys)), prov) && Takes(c, x);
    assert Stale(g', keys) == {stale};
    ReferencedIsCurrent(OnlyLib, [Resolving(a)], g', keys, x);
    OneEntryWants(OnlyLib, a, x);
  }

  // A stale version and the version that replaces it, in one repository under different tags.
  lemma ReplacedVersion() returns (a: Recipe, stale: Record, c: Candidate)
    ensures KeyFor(a) != KeyOf(stale) && !WantsRef(OnlyLib, a, c.ref) && c.ref.repo == "lib"
    ensures forall y :: y in Candidates(OnlyLib, stale) <==> y == c
  {
    var kept, gone := Ingredient("web", "lib", "22", ""), Ingredient("web", "lib", "1", "");
    var x;
    a, stale, c, x := KeptAndStale(kept, gone);
  }

  // The run fetches into a repository that was a unit import, which makes it recipe-managed: the stale
  // tag in it is removed, and was not confirmed.
  lemma RemovedUnconfirmed(a: Recipe, stale: Record, c: Candidate)
    requires KeyFor(a) != KeyOf(stale) && !WantsRef(OnlyLib, a, c.ref) && c.ref.repo == "lib"
    requires forall y :: y in Candidates(OnlyLib, stale) <==> y == c
    ensures var g := map[KeyOf(stale) := stale];
            var g', keys, row := g[KeyFor(a) := FullRecord(OnlyLib, a)], {KeyFor(a)}, Row(c.ref, c.digest, KeyOf(stale));
            var prov, prov' := map["lib" := UnitImport], map["lib" := RecipeManaged];
            && Recorded(OnlyLib, [Resolving(a)], g', keys) && SameBut(keys, g, g')
            && Listed(OnlyLib, g', keys, prov', row) && !Listed(OnlyLib, g, ProjectedKeys([Resolving(a)]), prov, row)
  {
    var g := map[KeyOf(stale) := stale];
    var g', keys, prov' := g[KeyFor(a) := FullRecord(OnlyLib, a)], {KeyFor(a)}, map["lib" := RecipeManaged];
    OneEntry(OnlyLib, a, g');
    ListedAfter(a, stale, c, g', prov');
  }

  lemma ListedAfter(a: Recipe, stale: Record, c: Candidate, g': map<string, Record>, prov': map<RepoName, Provenance>)
    requires KeyFor(a) != KeyOf(stale) && !WantsRef(OnlyLib, a, c.ref) && Managed(prov', c.ref.repo) && c in Candidates(OnlyLib, stale)
    requires Recorded(OnlyLib, [Resolving(a)], g', {KeyFor(a)}) && KeyOf(stale) in g' && g'[KeyOf(stale)] == stale
    ensures Listed(OnlyLib, g', {KeyFor(a)}, prov', Row(c.ref, c.digest, KeyOf(stale)))
  {
    assert g'[KeyOf(stale)] in Stale(g', {KeyFor(a)});
    ReferencedIsCurrent(OnlyLib, [Resolving(a)], g', {KeyFor(a)}, c.ref);
    OneEntryWants(OnlyLib, a, c.ref);
    assert Condemned(c, Referenced(OnlyLib, Kept(g', {KeyFor(a)})), prov');
  }

  // The record of a kept key changed and no longer refers to a tag that a stale record also has: the tag
  // is removed, and was not confirmed.
  lemma ChangedRecordUnconfirmed(a: Recipe, b: Recipe, stale: Record, c: Candidate)
    requires KeyFor(a) == KeyFor(b) != KeyOf(stale) && !WantsRef(OnlyLib, a, c.ref) && Wants(OnlyLib, b, c) && c.ref.repo == "lib"
    requires forall y :: y in Candidates(OnlyLib, stale) <==> y == c
    ensures var g := map[KeyOf(stale) := stale, KeyFor(b) := FullRecord(OnlyLib, b)];
            var g', keys, row := g[KeyFor(a) := FullRecord(OnlyLib, a)], {KeyFor(a)}, Row(c.ref, c.digest, KeyOf(stale));
            var prov := map["lib" := RecipeManaged];
            && Recorded(OnlyLib, [Resolving(b)], g, keys) && Recorded(OnlyLib, [Resolving(a)], g', keys) && SameBut(keys, g, g')
            && Listed(OnlyLib, g', keys, prov, row) && !Listed(OnlyLib, g, keys, prov, row)
  {
    var g := map[KeyOf(stale) := stale, KeyFor(b) := FullRecord(OnlyLib, b)];
    var g', keys, prov := g[KeyFor(a) := FullRecord(OnlyLib, a)], {KeyFor(a)}, map["lib" := RecipeManaged];
    OneEntry(OnlyLib, a, g');
    OneEntry(OnlyLib, b, g);
    ListedAfter(a, stale, c, g', prov);
    ReferencedIsCurrent(OnlyLib, [Resolving(b)], g, keys, c.ref);
    OneEntryWants(OnlyLib, b, c.ref);
  }

  // Such recipes exist: the same name and version, once with the old tag and once with the new one.
  lemma ChangedRecordExample() returns (a: Recipe, b: Recipe, stale: Record, c: Candidate)
    ensures KeyFor(a) == KeyFor(b) != KeyOf(stale) && !WantsRef(OnlyLib, a, c.ref) && Wants(OnlyLib, b, c) && c.ref.repo == "lib"
    ensures forall y :: y in Candidates(OnlyLib, stale) <==> y == c
  {
    var now, then_ := Ingredient("web", "lib", "22", ""), Ingredient("web", "lib", "1", "");
    var x;
    a, stale, c, x := KeptAndStale(now, then_);
    b := a.(ingredients := [then_]);
    assert then_ in b.ingredients && IsCandidate(RowOf(OnlyLib, then_), c);
  }
}
