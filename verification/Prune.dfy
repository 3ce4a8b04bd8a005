/**
 Which tags a prune unlinks, given the recipe graph, the keys a run resolved and the provenance of
 the repositories.
 */
module Prune {
  import opened Wrappers
  import opened Registry
  import opened Text
  import opened SignatureTags

  datatype TagRef = TagRef(repo: RepoName, tag: Tag)

  datatype IngredientRecord = IngredientRecord(name: string, repo: RepoName, tag: Tag, digest: Digest)

  datatype Record = Record(name: string, version: string, cookbook: string, digest: Digest, ingredients: seq<IngredientRecord>)

  datatype Provenance = RecipeManaged | UnitImport | VulnerabilityDb

  datatype Candidate = Candidate(ref: TagRef, digest: Digest)

  // A row of the report and of the confirmation.
  datatype Row = Row(ref: TagRef, digest: Digest, recipe: string)

  // Where a nominal reference lands in this store; None when it cannot be relocated.
  type Relocation = string -> Option<RepoName>

  function Key(name: string, version: string): string {
    name + "@" + version
  }

  function KeyOf(rec: Record): string {
    Key(rec.name, rec.version)
  }

  /******* What a record put in the store *******/

  function IngredientCandidates(ings: seq<IngredientRecord>): (cs: seq<Candidate>)
    ensures forall c :: c in cs <==> exists ing :: ing in ings && IsCandidate(ing, c)
  {
    if ings == [] then []
    else
      var rest := IngredientCandidates(ings[..|ings| - 1]);
      var ing := ings[|ings| - 1];
      assert ings == ings[..|ings| - 1] + [ing];
      if ing.repo == "" || ing.tag == "" then rest
      else
        var c := Candidate(TagRef(ing.repo, ing.tag), ing.digest);
        assert IsCandidate(ing, c);
        rest + [c]
  }

  predicate IsCandidate(ing: IngredientRecord, c: Candidate) {
    ing.repo != "" && ing.tag != "" && c == Candidate(TagRef(ing.repo, ing.tag), ing.digest)
  }

  function Candidates(at: Relocation, rec: Record): seq<Candidate> {
    IngredientCandidates(rec.ingredients)
    + if at(rec.cookbook).Some? && rec.version != "" then
        [Candidate(TagRef(at(rec.cookbook).value, rec.version), rec.digest)]
      else []
  }

  ghost function Referenced(at: Relocation, keep: set<Record>): iset<TagRef> {
    iset r, c | r in keep && c in Candidates(at, r) :: c.ref
  }

  // The tags under which a digest's signatures go with it.
  function SignatureRefs(repo: RepoName, d: Digest): set<TagRef> {
    if HasPrefix(d, "sha256:") then {TagRef(repo, SignatureTag(d)), TagRef(repo, FallbackTag(d))} else {}
  }

  // No kept record asks for it and its repository belongs to recipes.
  ghost predicate Condemned(c: Candidate, kept: iset<TagRef>, prov: map<RepoName, Provenance>) {
    c.ref !in kept && c.ref.repo in prov && prov[c.ref.repo] == RecipeManaged
  }

  ghost predicate Takes(c: Candidate, x: TagRef) {
    x == c.ref || x in SignatureRefs(c.ref.repo, c.digest)
  }

  // x goes: some stale record brought a condemned candidate that takes it along.
  ghost predicate Unlinks(at: Relocation, stale: set<Record>, kept: iset<TagRef>, prov: map<RepoName, Provenance>, x: TagRef) {
    exists r, c :: r in stale && c in Candidates(at, r) && Condemned(c, kept, prov) && Takes(c, x)
  }

  /******* The computation *******/

  method SplitRecords(records: seq<Record>, keys: set<string>) returns (stale: seq<Record>, keep: seq<Record>)
    ensures multiset(stale) + multiset(keep) == multiset(records)
    ensures forall r :: r in keep <==> r in records && KeyOf(r) in keys
    ensures forall r :: r in stale <==> r in records && KeyOf(r) !in keys
  {
    stale, keep := [], [];
    for i := 0 to |records|
      invariant multiset(stale) + multiset(keep) == multiset(records[..i])
      invariant forall r :: r in keep <==> r in records[..i] && KeyOf(r) in keys
      invariant forall r :: r in stale <==> r in records[..i] && KeyOf(r) !in keys
    {
      assert records[..i + 1] == records[..i] + [records[i]];
      if KeyOf(records[i]) in keys {
        keep := keep + [records[i]];
      } else {
        stale := stale + [records[i]];
      }
    }
    assert records[..|records|] == records;
  }

  method ReferencedTags(at: Relocation, keep: seq<Record>) returns (out: set<TagRef>)
    ensures forall x :: x in out <==> x in Referenced(at, set r | r in keep)
  {
    out := {};
    for i := 0 to |keep|
      invariant forall x :: x in out <==> exists r, c :: r in keep[..i] && c in Candidates(at, r) && x == c.ref
    {
      assert keep[..i + 1] == keep[..i] + [keep[i]];
      out := out + set c | c in Candidates(at, keep[i]) :: c.ref;
    }
    assert keep[..|keep|] == keep;
  }

  // The candidates of one stale record.
  method RecordCandidates(at: Relocation, rec: Record, kept: set<TagRef>, prov: map<RepoName, Provenance>, ghost k: iset<TagRef>)
    returns (refs: seq<TagRef>, rows: seq<Row>)
    requires forall x :: x in k <==> x in kept
    ensures forall x :: x in refs <==> exists c :: c in Candidates(at, rec) && Condemned(c, k, prov) && Takes(c, x)
    ensures forall row :: row in rows <==>
              exists c :: c in Candidates(at, rec) && Condemned(c, k, prov) && row == Row(c.ref, c.digest, KeyOf(rec))
  {
    refs, rows := [], [];
    var cs := Candidates(at, rec);
    for i := 0 to |cs|
      invariant forall x :: x in refs <==> exists c :: c in cs[..i] && Condemned(c, k, prov) && Takes(c, x)
      invariant forall row :: row in rows <==>
                  exists c :: c in cs[..i] && Condemned(c, k, prov) && row == Row(c.ref, c.digest, KeyOf(rec))
    {
      assert cs[..i + 1] == cs[..i] + [cs[i]];
      var c := cs[i];
      if c.ref in kept || c.ref.repo !in prov || prov[c.ref.repo] != RecipeManaged {
        continue;
      }
      assert Condemned(c, k, prov);
      var signatures := if HasPrefix(c.digest, "sha256:") then
        [TagRef(c.ref.repo, SignatureTag(c.digest)), TagRef(c.ref.repo, FallbackTag(c.digest))] else [];
      refs := refs + [c.ref] + signatures;
      rows := rows + [Row(c.ref, c.digest, KeyOf(rec))];
    }
    assert cs[..|cs|] == cs;
  }

  method PruneCandidates(at: Relocation, stale: seq<Record>, kept: set<TagRef>, prov: map<RepoName, Provenance>, ghost k: iset<TagRef>)
    returns (refs: seq<TagRef>, rows: seq<Row>)
    requires forall x :: x in k <==> x in kept
    ensures forall x :: x in refs <==> Unlinks(at, (set r | r in stale), k, prov, x)
    ensures forall row :: row in rows <==>
              exists r, c :: r in stale && c in Candidates(at, r) && Condemned(c, k, prov) && row == Row(c.ref, c.digest, KeyOf(r))
  {
    refs, rows := [], [];
    for i := 0 to |stale|
      invariant forall x :: x in refs <==>
                  exists r, c :: r in stale[..i] && c in Candidates(at, r) && Condemned(c, k, prov) && Takes(c, x)
      invariant forall row :: row in rows <==>
                  exists r, c :: r in stale[..i] && c in Candidates(at, r) && Condemned(c, k, prov) && row == Row(c.ref, c.digest, KeyOf(r))
    {
      assert stale[..i + 1] == stale[..i] + [stale[i]];
      var some, list := RecordCandidates(at, stale[i], kept, prov, k);
      refs, rows := refs + some, rows + list;
    }
    assert stale[..|stale|] == stale;
  }
}
