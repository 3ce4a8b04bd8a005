/**
 One synchronization run and the prune that ends it.

 Each Retriever entry resolves to a recipe or fails; a recipe's ingredients are fetched by
 concurrent workers. Any interleaving of the workers, any failure of any of them and any items
 settled by an earlier attempt are possible.
 */
module Sync {
  import opened Wrappers
  import opened Registry
  import opened Recipes
  import opened SignatureTags
  import opened Prune
  import opened Retention
  import opened Workers

  class Engine {
    const at: Relocation
    const fails: nat -> bool            // whether the n-th request fails
    const offers: (string, Digest) -> Offer // the signatures a source has for a digest

    var requests: nat
    var tags: map<TagRef, Digest>
    var graph: map<string, Record>
    var prov: map<RepoName, Provenance>
    var settled: set<string>            // items this or an earlier attempt finished
    var keys: set<string>               // what this run kept
    var complete: bool                  // nothing failed so far

    constructor (at: Relocation, fails: nat -> bool, offers: (string, Digest) -> Offer, tags: map<TagRef, Digest>, graph: map<string, Record>,
                 prov: map<RepoName, Provenance>, settled: set<string>)
      ensures this.at == at && this.fails == fails && this.offers == offers && this.tags == tags && this.graph == graph && this.prov == prov && this.settled == settled
      ensures keys == {} && complete
    {
      this.at, this.fails, this.offers, this.tags, this.graph, this.prov, this.settled := at, fails, offers, tags, graph, prov, settled;
      keys, complete, requests := {}, true, 0;
    }

    ghost predicate Calm() {
      forall n :: !fails(n)
    }

    ghost function Supplied(): Supply {
      Supply(Calm(), offers)
    }

    method Fails() returns (failed: bool)
      modifies this`requests
      ensures Calm() ==> !failed
    {
      failed := fails(requests);
      requests := requests + 1;
    }

    // Records are filed under their own key.
    ghost predicate Valid()
      reads this
    {
      forall k :: k in graph ==> KeyOf(graph[k]) == k
    }

    /******* One ingredient *******/

    // Fetch one ingredient: on success its tag is there, and unless copying them fails its signatures and
    // its provenance. A reference that cannot be relocated fails.
    method FetchIngredient(ing: Ingredient, item: string) returns (ok: bool)
      modifies this`tags, this`prov, this`settled, this`requests
      ensures Calm() && at(ing.ref).Some? ==> ok
      ensures old(tags).Keys <= tags.Keys && old(settled) <= settled <= old(settled) + {item}
      ensures ManagedWithin({RowOf(at, ing).repo}, old(prov), prov)
      ensures ok ==> at(ing.ref).Some?
      ensures ok ==> RefOf(at, ing) in tags && (ing.version !in SignatureTagsOf(ing.digest) ==> tags[RefOf(at, ing)] == ing.digest)
      ensures OnlyOwnTags(RowOf(at, ing).repo, ing.version, ing.digest, old(tags), tags)
      ensures ok ==> Arrived(at, Supplied(), ing, tags, prov)
      ensures ok && Calm() ==> SignaturesAre(offers(ing.ref, ing.digest), RowOf(at, ing).repo, ing.version, ing.digest, old(tags), tags)
      ensures ok ==> item in settled
      ensures !ok ==> tags == old(tags) && settled == old(settled)
    {
      var failed := Fails();
      if failed || at(ing.ref).None? {
        return false;
      }
      TagWithSignatures(RowOf(at, ing).repo, ing.version, ing.digest, offers(ing.ref, ing.digest));
      var unrecorded := Fails();
      if !unrecorded {
        prov := prov[RowOf(at, ing).repo := RecipeManaged];
      }
      settled := settled + {item};
      ok := true;
    }

    // A manifest under its tag, and whichever of its signatures the source offers; one that cannot be
    // copied is left behind.
    method TagWithSignatures(repo: RepoName, tag: Tag, d: Digest, offer: Offer)
      modifies this`tags, this`requests
      ensures TagRef(repo, tag) in tags && (tag !in SignatureTagsOf(d) ==> tags[TagRef(repo, tag)] == d)
      ensures old(tags).Keys <= tags.Keys && OnlyOwnTags(repo, tag, d, old(tags), tags)
      ensures Calm() ==> SignaturesAre(offer, repo, tag, d, old(tags), tags)
    {
      tags := tags[TagRef(repo, tag) := d];
      if offer.attached.Some? {
        var failed := Fails();
        if !failed {
          tags := tags[TagRef(repo, SignatureTag(d)) := offer.attached.value];
        }
      }
      if offer.bundled.Some? {
        var failed := Fails();
        if !failed {
          tags := tags[TagRef(repo, FallbackTag(d)) := offer.bundled.value];
        }
      }
    }

    // One step of one worker.
    method WorkerStep(item: string, ing: Ingredient, p: Phase, row: IngredientRecord)
      returns (p': Phase, row': IngredientRecord)
      requires p != Over
      modifies this`tags, this`prov, this`settled, this`complete, this`requests
      ensures Stepped(at, Supplied(), item, ing, p, p', row', old(complete), complete, old(tags), tags, old(settled), settled, old(prov), prov)
      ensures Calm() && at(ing.ref).Some? ==> complete == old(complete)
      ensures ManagedWithin({RowOf(at, ing).repo}, old(prov), prov)
    {
      row' := row;
      match p {
        case Unlaunched =>
          if item in settled {
            p', row' := Over, RowOf(at, ing);
          } else {
            p' := Running;
          }
        case Running =>
          var ok := FetchIngredient(ing, item);
          if ok {
            p' := Fetched;
          } else {
            p', complete := Over, false;
          }
        case Fetched =>
          p', row' := Over, RowOf(at, ing);
      }
    }

    // All ingredients, workers interleaved at will: afterwards each has its row or the run is partial.
    method FetchIngredients(rid: string, ings: seq<Ingredient>) returns (rows: seq<IngredientRecord>)
      modifies this`tags, this`prov, this`settled, this`complete, this`requests
      ensures old(tags).Keys <= tags.Keys && (complete ==> old(complete))
      ensures Calm() && (forall ing :: ing in ings ==> at(ing.ref).Some?) ==> complete == old(complete)
      ensures ManagedWithin(ReposOf(at, ings), old(prov), prov)
      ensures old(settled) <= settled <= old(settled) + ItemsOf(rid, ings)
      ensures |rows| == |ings| && (complete ==> forall i :: 0 <= i < |ings| ==> rows[i] == RowOf(at, ings[i]))
      ensures complete ==> forall i :: 0 <= i < |ings| ==>
                Arrived(at, Supplied(), ings[i], tags, prov) || MayCountAsSettled(rid, ings, i, old(settled))
      ensures WrittenFor(at, rid, ings, old(settled), old(tags), tags)
      ensures complete ==> ItemsOf(rid, ings) <= settled
    {
      var n := |ings|;
      rows := seq(n, _ => NoRow);
      var phase := seq(n, _ => Unlaunched);
      while exists i :: 0 <= i < n && phase[i] != Over
        invariant WorkersOk(at, Supplied(), rid, ings, phase, rows, complete, tags, prov, settled, old(settled))
        invariant old(tags).Keys <= tags.Keys && (complete ==> old(complete))
        invariant Calm() && (forall ing :: ing in ings ==> at(ing.ref).Some?) ==> complete == old(complete)
        invariant ManagedWithin(ReposOf(at, ings), old(prov), prov)
        invariant old(settled) <= settled && WrittenFor(at, rid, ings, old(settled), old(tags), tags)
        invariant RunningUnsettled(rid, ings, phase, old(settled))
        decreases Remaining(phase)
      {
        var i :| 0 <= i < n && phase[i] != Over;
        assert ings[i] in ings && RowOf(at, ings[i]).repo in ReposOf(at, ings);
        ghost var was, had, whole, prov0 := tags, settled, complete, prov;
        var p, row := WorkerStep(Item(rid, ings[i].name), ings[i], phase[i], rows[i]);
        RemainingAfter(phase, i, p);
        WorkersStepOk(at, Supplied(), rid, ings, phase, rows, i, p, row, whole, complete, was, tags, had, settled, prov0, prov, old(settled));
        StepWrites(at, Supplied(), rid, ings, phase, i, p, row, whole, complete, old(tags), was, tags, had, settled, prov0, prov, old(settled));
        phase, rows := phase[i := p], rows[i := row];
      }
    }

    /******* One recipe *******/

    // The recipe artifact with its signatures, unless its item was settled.
    method StoreArtifact(rid: string, r: Recipe) returns (ok: bool)
      modifies this`tags, this`prov, this`settled, this`requests
      ensures Calm() && at(r.nominal).Some? ==> ok
      ensures old(tags).Keys <= tags.Keys && old(settled) <= settled <= old(settled) + {Item(rid, "recipe")}
      ensures Item(rid, "recipe") in old(settled) ==> ok && tags == old(tags)
      ensures ok ==> Item(rid, "recipe") in settled
      ensures ok && Item(rid, "recipe") !in old(settled) ==>
                && at(r.nominal).Some? && TagRef(at(r.nominal).value, r.version) in tags
                && (r.version !in SignatureTagsOf(r.digest) ==> tags[TagRef(at(r.nominal).value, r.version)] == r.digest)
      ensures at(r.nominal).None? ==> tags == old(tags)
      ensures at(r.nominal).Some? ==> OnlyOwnTags(at(r.nominal).value, r.version, r.digest, old(tags), tags)
      ensures ManagedWithin(RecipeRepos(at, r), old(prov), prov)
      ensures Calm() && at(r.nominal).Some? && Item(rid, "recipe") !in old(settled) ==>
                var repo := at(r.nominal).value;
                if TagRef(repo, r.version) in old(tags) && old(tags)[TagRef(repo, r.version)] == r.digest then tags == old(tags) && prov == old(prov)
                else Managed(prov, repo) && SignaturesAre(offers(r.nominal, r.digest), repo, r.version, r.digest, old(tags), tags)
    {
      if Item(rid, "recipe") in settled {
        return true;
      }
      if at(r.nominal).None? {
        return false;
      }
      var ref := TagRef(at(r.nominal).value, r.version);
      if !(ref in tags && tags[ref] == r.digest) {
        var failed := Fails();
        if failed {
          return false;
        }
        TagWithSignatures(ref.repo, ref.tag, r.digest, offers(r.nominal, r.digest));
        var unrecorded := Fails();
        if unrecorded {
          return false;
        }
        prov := prov[ref.repo := RecipeManaged];
      }
      settled := settled + {Item(rid, "recipe")};
      ok := true;
    }

    // After an entry the run is partial, or the entry's key is kept with every ingredient recorded and
    // exactly what was not settled is new in the store. If all of it was, nothing at all is fetched;
    // if none of it was, everything it wants is there.
    method SyncRecipe(entry: Entry)
      requires Valid()
      modifies this
      ensures Valid()
      ensures Turn(at, Supplied(), entry, old(tags), old(graph), old(prov), old(keys), old(settled), old(complete),
                   tags, graph, prov, keys, settled, complete)
      ensures entry.resolves.Some? && RecipeItems(entry.resolves.value) <= old(settled) ==> tags == old(tags)
      ensures complete && FromScratch(entry.resolves.value, old(settled)) ==> AllTagged(at, entry.resolves.value, tags)
    {
      if entry.resolves.None? {
        complete := false;
        return;
      }
      var r := entry.resolves.value;
      var ok, rows := FetchRecipe(r);
      ghost var arrived := complete;
      var failed := false;
      if ok {
        failed := Fails();
      }
      if !ok || failed {
        complete := false;
        TurnPartial(at, Supplied(), entry, ok && !failed, rows, old(tags), graph, old(prov), keys, old(settled), old(complete), tags, prov, settled, arrived);
      } else {
        graph := graph[KeyFor(r) := Record(r.name, r.version, r.nominal, r.digest, Placed(rows))];
        keys := keys + {KeyFor(r)};
        TurnWhole(at, Supplied(), entry, rows, old(tags), old(graph), old(prov), old(keys), old(settled), old(complete), tags, graph, prov, keys, settled, complete);
      }
      WrittenInRepos(at, r, old(settled), old(tags), tags);
      ScratchTagged(at, r, old(settled), old(tags), tags, complete);
    }

    // Everything of a recipe, into the store.
    method FetchRecipe(r: Recipe) returns (ok: bool, rows: seq<IngredientRecord>)
      modifies this`tags, this`prov, this`settled, this`complete, this`requests
      ensures RecipeFetched(at, Supplied(), r, ok, rows, old(tags), old(prov), old(settled), old(complete), tags, prov, settled, complete)
    {
      var rid := KeyFor(r);
      rows := FetchIngredients(rid, r.ingredients);
      ghost var mid, had, prov0 := tags, settled, prov;
      assert complete ==> rows == AllRows(at, r);
      assert complete ==> IngredientsDone(at, Supplied(), r, old(settled), had, mid, prov0);
      ok := StoreArtifact(rid, r);
      BothSteps(at, Supplied(), r, ok, rows, old(tags), mid, tags, old(prov), prov0, prov, old(settled), had, settled, old(complete), complete);
    }

    /******* The run *******/

    // Every entry in turn. A complete run brings exactly what was unsettled when its turn came; if the
    // entries' items are apart and none was settled before, that is everything they want.
    method SyncAll(entries: seq<Entry>)
      requires Valid()
      modifies this
      ensures Valid()
      ensures Synced(at, Supplied(), entries, old(settled), old(tags), old(graph), old(prov), tags, graph, prov, keys, complete)
    {
      keys, complete := {}, true;
      NothingYet(at, Supplied(), entries, settled, tags, graph, prov);
      for i := 0 to |entries|
        invariant Valid()
        invariant Going(at, Supplied(), entries, i, old(settled), old(tags), old(graph), old(prov), tags, graph, prov, keys, settled, complete)
      {
        SyncNth(entries, i, old(settled), old(tags), old(graph), old(prov));
      }
      GoneThrough(at, Supplied(), entries, old(settled), old(tags), old(graph), old(prov), tags, graph, prov, keys, settled, complete);
    }

    method SyncNth(entries: seq<Entry>, i: nat, ghost start: set<string>, ghost a: map<TagRef, Digest>, ghost g: map<string, Record>,
                   ghost q: map<RepoName, Provenance>)
      requires Valid() && i < |entries|
      requires Going(at, Supplied(), entries, i, start, a, g, q, tags, graph, prov, keys, settled, complete)
      modifies this
      ensures Valid()
      ensures Going(at, Supplied(), entries, i + 1, start, a, g, q, tags, graph, prov, keys, settled, complete)
    {
      ghost var graph0, keys0, tags0, had, prov0 := graph, keys, tags, settled, prov;
      ghost var whole := complete;
      SyncRecipe(entries[i]);
      TurnTaken(at, Supplied(), entries, i, start, a, g, q, tags0, graph0, prov0, keys0, had, whole, tags, graph, prov, keys, settled, complete);
    }

    // A whole run. Its prune touches nothing unless the run was complete; what it unlinks belongs to
    // recipe-managed repositories; a tag some entry wants is unlinked only if it is losable - and if
    // nothing fails, exactly the losable tags and the stale records go.
    method Run(entries: seq<Entry>, prune: bool) returns (ghost before: map<TagRef, Digest>, ghost graphBefore: map<string, Record>)
      requires Valid()
      modifies this
      ensures Valid() && Fewer(before, tags) && Fewer(graphBefore, graph)
      ensures Synced(at, Supplied(), entries, old(settled), old(tags), old(graph), old(prov), before, graphBefore, prov, keys, complete)
      ensures !complete || !prune ==> tags == before && graph == graphBefore
      ensures complete ==> Recorded(at, entries, graph, keys)
      ensures complete && (forall e :: e in entries ==> Coherent(e)) ==>
                (Confirmed(at, entries, old(graph), graphBefore, keys, old(prov), prov)
                 <==> NothingNewlyLeftOver(at, entries, old(graph), keys, old(prov), prov))
      ensures LostFromRecipesOnly(prov, before, tags)
      ensures complete ==> LostIfLosable(at, entries, graphBefore, keys, prov, before, tags)
      ensures Calm() && complete && prune ==> LostExactly(at, entries, graphBefore, keys, prov, before, tags)
      ensures Calm() && complete && prune ==> forall k :: k in graph <==> k in keys
    {
      SyncAll(entries);
      before, graphBefore := tags, graph;
      RunConfirmed(at, entries, old(graph), graph, keys, old(prov), prov, complete);
      if prune {
        PruneAfter(entries);
      }
    }

    // The prune that ends a run: exactly the losable tags and the stale records go, unless something fails.
    method PruneAfter(entries: seq<Entry>)
      requires Valid() && (complete ==> Recorded(at, entries, graph, keys))
      modifies this`tags, this`graph, this`requests
      ensures Valid() && Fewer(old(tags), tags) && Fewer(old(graph), graph)
      ensures !complete ==> tags == old(tags) && graph == old(graph)
      ensures complete ==> Recorded(at, entries, graph, keys)
      ensures LostFromRecipesOnly(prov, old(tags), tags)
      ensures complete ==> LostIfLosable(at, entries, old(graph), keys, prov, old(tags), tags)
      ensures Calm() && complete ==> LostExactly(at, entries, old(graph), keys, prov, old(tags), tags)
      ensures Calm() && complete ==> forall k :: k in graph <==> k in keys
    {
      var done, rows := PruneToRetriever();
      LossExplained(at, entries, old(graph), keys, prov, old(tags), tags, complete, done);
      if complete {
        StillRecorded(at, entries, old(graph), graph, keys);
      }
    }

    // The graph's records, in any order.
    method Records() returns (records: seq<Record>)
      ensures forall r :: r in records <==> exists k :: k in graph && graph[k] == r
    {
      records := [];
      var left := graph.Keys;
      while left != {}
        invariant left <= graph.Keys
        invariant forall r :: r in records <==> exists k :: k in graph && k !in left && graph[k] == r
      {
        var k :| k in left;
        records := records + [graph[k]];
        left := left - {k};
      }
    }

    // Unlink tags one by one; a failure stops half way.
    method PruneTags(refs: seq<TagRef>) returns (ok: bool)
      modifies this`tags, this`requests
      ensures Calm() ==> ok
      ensures Fewer(old(tags), tags)
      ensures forall x :: x in old(tags) && x !in tags ==> x in refs
      ensures ok ==> forall x :: x in refs ==> x !in tags
    {
      for i := 0 to |refs|
        invariant Fewer(old(tags), tags)
        invariant forall x :: x in old(tags) && x !in tags ==> x in refs
        invariant forall j :: 0 <= j < i ==> refs[j] !in tags
      {
        var failed := Fails();
        if failed {
          return false;
        }
        tags := tags - {refs[i]};
      }
      ok := true;
    }

    // Forget the stale records; one that cannot be removed stays.
    method ForgetRecords(stale: seq<Record>)
      requires Valid()
      modifies this`graph, this`requests
      ensures Valid() && Fewer(old(graph), graph)
      ensures forall k :: k in old(graph) && k !in graph ==> exists r :: r in stale && KeyOf(r) == k
      ensures Calm() ==> forall r :: r in stale ==> KeyOf(r) !in graph
    {
      for i := 0 to |stale|
        invariant Valid() && Fewer(old(graph), graph)
        invariant Calm() ==> forall j :: 0 <= j < i ==> KeyOf(stale[j]) !in graph
        invariant forall k :: k in old(graph) && k !in graph ==> exists r :: r in stale && KeyOf(r) == k
      {
        var failed := Fails();
        if !failed {
          graph := graph - {KeyOf(stale[i])};
        }
      }
    }

    // A partial run prunes nothing. A complete one unlinks only - and when it gets through, exactly -
    // what the stale records condemn, and forgets no record it kept.
    method PruneToRetriever() returns (done: bool, rows: seq<Row>)
      requires Valid()
      modifies this`tags, this`graph, this`requests
      ensures Valid() && Fewer(old(tags), tags) && Fewer(old(graph), graph)
      ensures Calm() && complete ==> done
      ensures !complete ==> tags == old(tags) && graph == old(graph) && rows == []
      ensures done ==> forall row :: row in rows <==> Listed(at, old(graph), keys, prov, row)
      ensures OnlyGone(at, old(graph), keys, prov, old(tags), tags)
      ensures done ==> forall x :: Goes(at, old(graph), keys, prov, x) ==> x !in tags
      ensures forall k :: k in old(graph) && k in keys ==> k in graph
      ensures Calm() && complete ==> forall k :: k in graph ==> k in keys
    {
      done, rows := false, [];
      var unreadable := Fails();
      if !complete || unreadable {
        return;
      }
      var stale, refs;
      stale, refs, rows := Plan(keys);
      if stale == [] {
        return true, rows;
      }
      ForgetRecords(stale);
      done := PruneTags(refs);
    }

    // What a prune to the given keys would remove now.
    method Plan(wanted: set<string>) returns (stale: seq<Record>, refs: seq<TagRef>, rows: seq<Row>)
      requires Valid()
      ensures forall r :: r in stale ==> KeyOf(r) !in wanted
      ensures forall k :: k in graph && k !in wanted ==> graph[k] in stale
      ensures forall x :: x in refs <==> Goes(at, graph, wanted, prov, x)
      ensures stale == [] ==> refs == []
      ensures forall row :: row in rows <==> Listed(at, graph, wanted, prov, row)
    {
      var records := Records();
      var keep;
      stale, keep := SplitRecords(records, wanted);
      StaleAndKept(graph, wanted, records, stale, keep);
      var referenced := ReferencedTags(at, keep);
      ghost var kept := Referenced(at, Kept(graph, wanted));
      refs, rows := PruneCandidates(at, stale, referenced, prov, kept);
      assert refs != [] ==> refs[0] in refs;
      RowsListed(at, graph, wanted, prov, stale, rows);
    }

    // The confirmation shown before a run: computed on the graph as it is, with the keys the entries'
    // version expressions resolve to. An entry that does not resolve fails it.
    method ProjectPrune(entries: seq<Entry>) returns (out: Option<seq<Row>>)
      requires Valid()
      modifies this`requests
      ensures out.Some? ==> forall e :: e in entries ==> e.version.Some?
      ensures out.Some? ==> forall row :: row in out.value <==> Listed(at, graph, ProjectedKeys(entries), prov, row)
      ensures Calm() && (forall e :: e in entries ==> e.version.Some?) ==> out.Some?
    {
      var wanted: set<string> := {};
      for i := 0 to |entries|
        invariant forall e :: e in entries[..i] ==> e.version.Some?
        invariant wanted == ProjectedKeys(entries[..i])
      {
        assert entries[..i + 1] == entries[..i] + [entries[i]];
        var unreachable := Fails();
        if unreachable || entries[i].version.None? {
          return None;
        }
        wanted := wanted + {Key(entries[i].name, entries[i].version.value)};
      }
      assert entries[..|entries|] == entries;
      var unreadable := Fails();
      if unreadable {
        return None;
      }
      var stale, refs, rows := Plan(wanted);
      out := Some(rows);
    }
  }

  // What a run has done when its prune begins. The graph changed at kept keys only and repositories became
  // recipe-managed only where an entry relocates to; without failures it is complete. If it is, each
  // entry's key is recorded in full, what was unsettled in its turn has arrived, and with distinct
  // ingredient names the new tags are exactly those; items that are apart leave nothing wanted untagged.
  ghost predicate Synced(at: Relocation, sup: Supply, entries: seq<Entry>, start: set<string>,
                         a: map<TagRef, Digest>, g: map<string, Record>, q: map<RepoName, Provenance>,
                         tags: map<TagRef, Digest>, graph: map<string, Record>, prov: map<RepoName, Provenance>, keys: set<string>, complete: bool) {
    && a.Keys <= tags.Keys && SameBut(keys, g, graph) && ManagedWithin(AllRepos(at, entries), q, prov)
    && (sup.calm && AllLocated(at, entries) ==> complete)
    && (complete ==> Recorded(at, entries, graph, keys) && AllArrived(at, sup, entries, |entries|, start, tags, prov))
    && (complete && AllNamesApart(entries) ==> RunTags(at, entries, start, a, tags))
    && (complete && ItemsApart(entries, start) ==> AllTaggedUpTo(at, entries, |entries|, tags))
  }

  // What fetching a recipe does.
  ghost predicate RecipeFetched(at: Relocation, sup: Supply, r: Recipe, ok: bool, rows: seq<IngredientRecord>,
                                a: map<TagRef, Digest>, q: map<RepoName, Provenance>, s: set<string>, c: bool,
                                a': map<TagRef, Digest>, q': map<RepoName, Provenance>, s': set<string>, c': bool) {
    && a.Keys <= a'.Keys && (c' ==> c) && s' <= s + RecipeItems(r)
    && WrittenForRecipe(at, r, s, a, a') && ManagedWithin(RecipeRepos(at, r), q, q')
    && (sup.calm && Located(at, r) ==> ok && c' == c)
    && (ok && c' ==>
          rows == AllRows(at, r) && s' == s + RecipeItems(r) && FetchesExactly(at, r, s, a, a') && UnsettledArrived(at, sup, r, s, a', q'))
  }

  lemma BothSteps(at: Relocation, sup: Supply, r: Recipe, ok: bool, rows: seq<IngredientRecord>, a: map<TagRef, Digest>, b: map<TagRef, Digest>, c: map<TagRef, Digest>,
                  q: map<RepoName, Provenance>, q1: map<RepoName, Provenance>, q': map<RepoName, Provenance>,
                  s: set<string>, s1: set<string>, s': set<string>, was: bool, now: bool)
    requires a.Keys <= b.Keys && s <= s1 <= s + ItemsOf(KeyFor(r), r.ingredients) && WrittenFor(at, KeyFor(r), r.ingredients, s, a, b)
    requires ManagedWithin(ReposOf(at, r.ingredients), q, q1) && ManagedWithin(RecipeRepos(at, r), q1, q')
    requires (now ==> was) && (now ==> IngredientsDone(at, sup, r, s, s1, b, q1) && rows == AllRows(at, r))
    requires ArtifactStep(at, r, s1, ok, b, c) && s1 <= s' <= s1 + {Item(KeyFor(r), "recipe")} && (ok ==> Item(KeyFor(r), "recipe") in s')
    requires sup.calm && Located(at, r) ==> ok && now == was
    ensures RecipeFetched(at, sup, r, ok, rows, a, q, s, was, c, q', s', now)
  {
    RecipeWrites(at, r, a, b, c, s, s1, ok);
    if ok && now {
      RecipeExact(at, sup, r, a, b, c, s, s1, q1);
      ArrivedAfter(at, sup, r, s, s1, b, c, q1, q');
    }
  }

  lemma TurnPartial(at: Relocation, sup: Supply, entry: Entry, ok: bool, rows: seq<IngredientRecord>,
                    a: map<TagRef, Digest>, g: map<string, Record>, q: map<RepoName, Provenance>, keys: set<string>, s: set<string>, c: bool,
                    a': map<TagRef, Digest>, q': map<RepoName, Provenance>, s': set<string>, c': bool)
    requires entry.resolves.Some? && !ok && !(sup.calm && Located(at, entry.resolves.value))
    requires exists fetched :: RecipeFetched(at, sup, entry.resolves.value, fetched, rows, a, q, s, c, a', q', s', c')
    ensures Turn(at, sup, entry, a, g, q, keys, s, c, a', g, q', keys, s', false)
  {
  }

  lemma TurnWhole(at: Relocation, sup: Supply, entry: Entry, rows: seq<IngredientRecord>,
                  a: map<TagRef, Digest>, g: map<string, Record>, q: map<RepoName, Provenance>, keys: set<string>, s: set<string>, c: bool,
                  a': map<TagRef, Digest>, g': map<string, Record>, q': map<RepoName, Provenance>, keys': set<string>, s': set<string>, c': bool)
    requires entry.resolves.Some? && RecipeFetched(at, sup, entry.resolves.value, true, rows, a, q, s, c, a', q', s', c')
    requires var r := entry.resolves.value;
             g' == g[KeyFor(r) := Record(r.name, r.version, r.nominal, r.digest, Placed(rows))] && keys' == keys + {KeyFor(r)}
    ensures Turn(at, sup, entry, a, g, q, keys, s, c, a', g', q', keys', s', c')
  {
  }

  // What one entry's turn does to a run.
  ghost predicate Turn(at: Relocation, sup: Supply, entry: Entry, a: map<TagRef, Digest>, g: map<string, Record>, q: map<RepoName, Provenance>,
                       keys: set<string>, s: set<string>, c: bool, a': map<TagRef, Digest>, g': map<string, Record>, q': map<RepoName, Provenance>,
                       keys': set<string>, s': set<string>, c': bool) {
    && a.Keys <= a'.Keys && (c' ==> c && entry.resolves.Some?)
    && (entry.resolves.None? ==> g' == g && keys' == keys && s' == s && q' == q)
    && (entry.resolves.Some? ==>
          var r := entry.resolves.value;
          && Others(KeyFor(r), g, g', keys, keys') && s' <= s + RecipeItems(r)
          && WrittenForRecipe(at, r, s, a, a') && ManagedWithin(RecipeRepos(at, r), q, q')
          && (sup.calm && Located(at, r) ==> c' == c)
          && (c' ==>
                && KeyFor(r) in keys' && KeyFor(r) in g' && g'[KeyFor(r)] == FullRecord(at, r)
                && s' == s + RecipeItems(r) && FetchesExactly(at, r, s, a, a') && UnsettledArrived(at, sup, r, s, a', q')))
  }

  lemma TurnTaken(at: Relocation, sup: Supply, entries: seq<Entry>, i: nat, start: set<string>,
                  a0: map<TagRef, Digest>, g0: map<string, Record>, q0: map<RepoName, Provenance>,
                  a: map<TagRef, Digest>, g: map<string, Record>, q: map<RepoName, Provenance>, keys: set<string>, s: set<string>, c: bool,
                  a': map<TagRef, Digest>, g': map<string, Record>, q': map<RepoName, Provenance>, keys': set<string>, s': set<string>, c': bool)
    requires i < |entries| && Going(at, sup, entries, i, start, a0, g0, q0, a, g, q, keys, s, c)
    requires Turn(at, sup, entries[i], a, g, q, keys, s, c, a', g', q', keys', s', c')
    ensures Going(at, sup, entries, i + 1, start, a0, g0, q0, a', g', q', keys', s', c')
  {
    EntryKeeps(at, entries, i, g0, g, g', keys, keys', q0, q, q');
    if c' {
      EntryDone(at, entries, i, start, a0, g, g', keys, keys', s, s', a, a');
      ArrivedMore(at, sup, entries, i, start, RecipeRepos(at, entries[i].resolves.value), a, a', q, q');
    }
  }

  // A run after its first n entries.
  ghost predicate Going(at: Relocation, sup: Supply, entries: seq<Entry>, n: nat, start: set<string>,
                        a: map<TagRef, Digest>, g: map<string, Record>, q: map<RepoName, Provenance>, tags: map<TagRef, Digest>,
                        graph: map<string, Record>, prov: map<RepoName, Provenance>, keys: set<string>, settled: set<string>, complete: bool)
    requires n <= |entries|
  {
    && a.Keys <= tags.Keys && SameBut(keys, g, graph) && ManagedWithin(AllRepos(at, entries), q, prov)
    && (sup.calm && AllLocated(at, entries) ==> complete)
    && (complete ==> SoFar(at, entries, n, start, a, graph, keys, settled, tags) && AllArrived(at, sup, entries, n, start, tags, prov))
  }

  lemma NothingYet(at: Relocation, sup: Supply, entries: seq<Entry>, start: set<string>, a: map<TagRef, Digest>, g: map<string, Record>,
                   q: map<RepoName, Provenance>)
    ensures Going(at, sup, entries, 0, start, a, g, q, a, g, q, {}, start, true)
  {
    assert entries[..0] == [];
  }

  lemma GoneThrough(at: Relocation, sup: Supply, entries: seq<Entry>, start: set<string>,
                    a: map<TagRef, Digest>, g: map<string, Record>, q: map<RepoName, Provenance>, tags: map<TagRef, Digest>,
                    graph: map<string, Record>, prov: map<RepoName, Provenance>, keys: set<string>, settled: set<string>, complete: bool)
    requires Going(at, sup, entries, |entries|, start, a, g, q, tags, graph, prov, keys, settled, complete)
    ensures Synced(at, sup, entries, start, a, g, q, tags, graph, prov, keys, complete)
  {
    assert entries[..|entries|] == entries;
    RunTagged(at, entries, start, a, tags, complete);
  }

  // A complete run after its first n entries: what it recorded, settled and tagged.
  ghost predicate SoFar(at: Relocation, entries: seq<Entry>, n: nat, start: set<string>, a: map<TagRef, Digest>,
                        g: map<string, Record>, keys: set<string>, settled: set<string>, tags: map<TagRef, Digest>)
    requires n <= |entries|
  {
    && Recorded(at, entries[..n], g, keys) && settled == start + AllItems(entries[..n])
    && TaggedExactly(at, entries, n, start, a, tags)
  }

  lemma EntryDone(at: Relocation, entries: seq<Entry>, i: nat, start: set<string>, a0: map<TagRef, Digest>,
                  g: map<string, Record>, g': map<string, Record>, keys: set<string>, keys': set<string>, s: set<string>, s': set<string>,
                  a: map<TagRef, Digest>, b: map<TagRef, Digest>)
    requires i < |entries| && SoFar(at, entries, i, start, a0, g, keys, s, a) && entries[i].resolves.Some? && a.Keys <= b.Keys
    requires var r := entries[i].resolves.value;
             && Others(KeyFor(r), g, g', keys, keys') && KeyFor(r) in keys' && KeyFor(r) in g' && g'[KeyFor(r)] == FullRecord(at, r)
             && s' == s + RecipeItems(r) && FetchesExactly(at, r, s, a, b)
    ensures SoFar(at, entries, i + 1, start, a0, g', keys', s', b)
  {
    ItemsAfter(entries, i);
    TaggedStep(at, entries, i, start, a0, a, b);
    RecordedStep(at, entries, i, g, keys, g', keys');
  }

  lemma EntryKeeps(at: Relocation, entries: seq<Entry>, i: nat, g0: map<string, Record>, g: map<string, Record>, g': map<string, Record>,
                   keys: set<string>, keys': set<string>, p0: map<RepoName, Provenance>, p: map<RepoName, Provenance>, p': map<RepoName, Provenance>)
    requires i < |entries| && SameBut(keys, g0, g) && ManagedWithin(AllRepos(at, entries), p0, p)
    requires entries[i].resolves.None? ==> g' == g && keys' == keys && p' == p
    requires entries[i].resolves.Some? ==>
               var r := entries[i].resolves.value; Others(KeyFor(r), g, g', keys, keys') && ManagedWithin(RecipeRepos(at, r), p, p')
    ensures SameBut(keys', g0, g') && ManagedWithin(AllRepos(at, entries), p0, p')
  {
    ReposAmong(at, entries, i);
  }

  lemma RunConfirmed(at: Relocation, entries: seq<Entry>, g: map<string, Record>, g': map<string, Record>, keys: set<string>,
                     prov: map<RepoName, Provenance>, prov': map<RepoName, Provenance>, complete: bool)
    requires complete ==> Recorded(at, entries, g', keys)
    requires SameBut(keys, g, g')
    ensures complete && (forall e :: e in entries ==> Coherent(e)) ==>
              (Confirmed(at, entries, g, g', keys, prov, prov') <==> NothingNewlyLeftOver(at, entries, g, keys, prov, prov'))
  {
    if complete && forall e :: e in entries ==> Coherent(e) {
      ConfirmedIff(at, entries, g, g', keys, prov, prov');
    }
  }

  // Items go by name and version, so the second entry of one key finds the first one's settled: nothing
  // fails, the run is complete, and what only the second wants is not there.
  method SecondFetchesNothing(at: Relocation, a: Recipe, b: Recipe, c: Candidate) returns (e: Engine)
    requires RecipeItems(b) <= RecipeItems(a) && Located(at, a) && Located(at, b)
    requires KeyFor(a) == KeyFor(b) && Wants(at, b, c) && c.ref.repo !in RecipeRepos(at, a)
    ensures e.complete && KeyFor(b) in e.graph && e.graph[KeyFor(b)] == FullRecord(at, b) && c.ref !in e.tags
  {
    e := new Engine(at, _ => false, (_, _) => Offer(None, None), map[], map[], map[], {});
    e.SyncRecipe(Resolving(a));
    WrittenInRepos(at, a, {}, map[], e.tags);
    e.SyncRecipe(Resolving(b));
  }

  lemma RowsListed(at: Relocation, graph: map<string, Record>, keys: set<string>, prov: map<RepoName, Provenance>, stale: seq<Record>, rows: seq<Row>)
    requires (set r | r in stale) == Stale(graph, keys)
    requires forall row :: row in rows <==>
               exists r, c :: r in stale && c in Candidates(at, r) && Condemned(c, Referenced(at, Kept(graph, keys)), prov)
                              && row == Row(c.ref, c.digest, KeyOf(r))
    ensures forall row :: row in rows <==> Listed(at, graph, keys, prov, row)
  {
    assert forall r :: r in stale <==> r in Stale(graph, keys);
  }

  lemma StaleAndKept(graph: map<string, Record>, keys: set<string>, records: seq<Record>, stale: seq<Record>, keep: seq<Record>)
    requires forall k :: k in graph ==> KeyOf(graph[k]) == k
    requires forall r :: r in records <==> exists k :: k in graph && graph[k] == r
    requires forall r :: r in keep <==> r in records && KeyOf(r) in keys
    requires forall r :: r in stale <==> r in records && KeyOf(r) !in keys
    ensures (set r | r in stale) == Stale(graph, keys)
    ensures (set r | r in keep) == Kept(graph, keys)
  {
    assert forall k :: k in graph ==> graph[k] in records;
  }

  // Entries were removed, nothing was changed.
  ghost predicate Fewer<K, V>(m: map<K, V>, m': map<K, V>) {
    forall k :: k in m' ==> k in m && m'[k] == m[k]
  }

  // Only what a prune of the graph takes away is missing.
  ghost predicate OnlyGone(at: Relocation, graph: map<string, Record>, keys: set<string>, prov: map<RepoName, Provenance>,
                           a: map<TagRef, Digest>, b: map<TagRef, Digest>) {
    forall x :: x in a && x !in b ==> Goes(at, graph, keys, prov, x)
  }

  ghost predicate LostFromRecipesOnly(prov: map<RepoName, Provenance>, a: map<TagRef, Digest>, b: map<TagRef, Digest>) {
    forall x :: x in a && x !in b ==> x.repo in prov && prov[x.repo] == RecipeManaged
  }

  ghost predicate LostIfLosable(at: Relocation, entries: seq<Entry>, graph: map<string, Record>, keys: set<string>, prov: map<RepoName, Provenance>,
                                a: map<TagRef, Digest>, b: map<TagRef, Digest>) {
    forall c :: Wanted(at, entries, c) && c.ref in a && c.ref !in b ==> LosableTag(at, entries, graph, keys, prov, c.ref)
  }

  // A tag is missing exactly when it is losable.
  ghost predicate LostExactly(at: Relocation, entries: seq<Entry>, graph: map<string, Record>, keys: set<string>, prov: map<RepoName, Provenance>,
                              a: map<TagRef, Digest>, b: map<TagRef, Digest>) {
    forall x :: x in a ==> (x !in b <==> LosableTag(at, entries, graph, keys, prov, x))
  }

  lemma LossExplained(at: Relocation, entries: seq<Entry>, graph: map<string, Record>, keys: set<string>, prov: map<RepoName, Provenance>,
                      a: map<TagRef, Digest>, b: map<TagRef, Digest>, complete: bool, done: bool)
    requires done ==> forall x :: Goes(at, graph, keys, prov, x) ==> x !in b
    requires OnlyGone(at, graph, keys, prov, a, b) && (complete ==> Recorded(at, entries, graph, keys))
    ensures LostFromRecipesOnly(prov, a, b)
    ensures complete ==> LostIfLosable(at, entries, graph, keys, prov, a, b)
    ensures complete && done ==> LostExactly(at, entries, graph, keys, prov, a, b)
  {
    if complete && done {
      forall x | x in a ensures x !in b <==> LosableTag(at, entries, graph, keys, prov, x) {
        WantedLostIff(at, entries, graph, keys, prov, x);
      }
    }
    forall x | x in a && x !in b ensures x.repo in prov && prov[x.repo] == RecipeManaged {
      assert Goes(at, graph, keys, prov, x);
    }
    if complete {
      forall c | Wanted(at, entries, c) && c.ref in a && c.ref !in b ensures LosableTag(at, entries, graph, keys, prov, c.ref) {
        WantedLostIff(at, entries, graph, keys, prov, c.ref);
      }
    }
  }

  lemma StillRecorded(at: Relocation, entries: seq<Entry>, g: map<string, Record>, g': map<string, Record>, keys: set<string>)
    requires Recorded(at, entries, g, keys) && Fewer(g, g') && forall k :: k in g && k in keys ==> k in g'
    ensures Recorded(at, entries, g', keys)
  {
  }
}
