/**
 Importing a medium: verify, push what verification cleared, record a complete import.

 The verification's report is whatever it is; what matters is that nothing happens before it and
 nothing happens against it.
 */
module MediaImport {
  import opened Wrappers
  import opened Registry
  import opened Recipes
  import opened Graph
  import opened SignatureTags
  import opened Promote

  datatype RecipeVerdict = RecipeVerdict(name: string, version: string, digest: Digest, repo: RepoName, pushable: bool)

  datatype Report = Report(blocked: bool, recipes: seq<RecipeVerdict>)

  // An entry of the recipe graph the medium carries.
  datatype Delivery = Delivery(name: string, cookbook: string, digest: Digest, repo: RepoName, tag: Tag,
                               landed: map<string, RepoName>)

  datatype Medium = Medium(
    graph: map<string, Delivery>,
    document: Digest -> Option<Recipe>,        // the valid recipe inside an artifact, if there is one
    relocated: string -> Option<RepoName>,
    cookbook: string -> Option<RepoName>,
    layout: Layout)

  datatype Outcome = VerificationFailed | Refused | Broken | Imported(delivered: nat, recorded: bool)

  function Pushable(rep: Report): (cleared: seq<RecipeVerdict>)
    ensures forall v :: v in cleared <==> !rep.blocked && v in rep.recipes && v.pushable
  {
    if rep.blocked then [] else Cleared(rep.recipes)
  }

  function Cleared(vs: seq<RecipeVerdict>): (cleared: seq<RecipeVerdict>)
    ensures forall v :: v in cleared <==> v in vs && v.pushable
  {
    if vs == [] then [] else (if vs[0].pushable then [vs[0]] else []) + Cleared(vs[1..])
  }

  // Order and repetitions are those of the report: each recipe on its own, parts one after another.
  lemma {:induction false} ClearedInOrder(a: seq<RecipeVerdict>, b: seq<RecipeVerdict>)
    ensures Cleared(a + b) == Cleared(a) + Cleared(b)
    decreases |a|
  {
    if a == [] {
      assert a + b == b;
    } else {
      var head := if a[0].pushable then [a[0]] else [];
      ClearedInOrder(a[1..], b);
      assert (a + b)[1..] == a[1..] + b && (a + b)[0] == a[0];
      Regroup(head, Cleared(a[1..]), Cleared(b));
    }
  }

  lemma Regroup(a: seq<RecipeVerdict>, b: seq<RecipeVerdict>, c: seq<RecipeVerdict>)
    ensures a + (b + c) == (a + b) + c
  {
  }

  function KeyOf(v: RecipeVerdict): string {
    v.name + "@" + v.version
  }

  // Every path comes from the graph the medium carries.
  function NamesOn(m: Medium, rec: Delivery): Names {
    Names((_, ing) => if ing == "" then Some(rec.repo)
                      else if ing in rec.landed && rec.landed[ing] != "" then Some(rec.landed[ing]) else None,
          m.relocated, m.cookbook)
  }

  // The delivery as the medium's own store has it: the graph and the report agree about it, its tag
  // resolves to the pinned artifact, and the document inside is the recipe it is published as.
  predicate Agrees(m: Medium, store: Snapshot, v: RecipeVerdict) {
    && KeyOf(v) in m.graph
    && var rec := m.graph[KeyOf(v)];
       && rec.digest == v.digest && rec.repo == v.repo && rec.repo != "" && rec.tag != ""
       && TagAt(store, rec.repo, rec.tag) == Some(rec.digest)
       && m.document(rec.digest).Some?
       && var f := m.document(rec.digest).value;
          f.name == rec.name && f.version == rec.tag && forall i :: 0 <= i < |f.ingredients| ==> f.ingredients[i].version != ""
  }

  function RecipeOn(m: Medium, v: RecipeVerdict): Recipe
    requires KeyOf(v) in m.graph && m.document(m.graph[KeyOf(v)].digest).Some?
  {
    var rec := m.graph[KeyOf(v)];
    m.document(rec.digest).value.(nominal := rec.cookbook)
  }

  // The tags pushing one delivery may move: none, unless everything about it agrees.
  ghost function PlacesOf(m: Medium, store: Snapshot, v: RecipeVerdict): Places {
    if !Agrees(m, store, v) then iset{}
    else
      var f, names := RecipeOn(m, v), NamesOn(m, m.graph[KeyOf(v)]);
      SidePlaces(names, f, Some(v.digest)) + CookbookPlace(names, f)
  }

  // Where pushing one delivery may move tags other than its own cookbook tag.
  ghost function SideOf(m: Medium, store: Snapshot, v: RecipeVerdict): Places {
    if !Agrees(m, store, v) then iset{}
    else SidePlaces(NamesOn(m, m.graph[KeyOf(v)]), RecipeOn(m, v), Some(v.digest))
  }

  // Everything the recipe pins is held by the destination, and unless an ingredient or a signature is
  // addressed to it, the cookbook tag carries the recipe or the same document.
  ghost predicate Landed(m: Medium, store: Snapshot, v: RecipeVerdict, side: Places, zone: Snapshot) {
    Agrees(m, store, v) && AllHeld(NamesOn(m, m.graph[KeyOf(v)]), RecipeOn(m, v), zone) && Published(m, v, side, zone)
  }

  ghost predicate Published(m: Medium, v: RecipeVerdict, side: Places, zone: Snapshot)
    requires KeyOf(v) in m.graph && m.document(m.graph[KeyOf(v)].digest).Some?
  {
    var f := RecipeOn(m, v);
    var cook := m.cookbook(f.name);
    cook.Some? && ((cook.value, f.version) !in side ==>
      var now := TagAt(zone, cook.value, f.version);
      now.Some? && Identical(m.layout, now.value, v.digest))
  }

  // Existing tags outside `side` read what they read.
  ghost predicate TagsStand(side: Places, a: Snapshot, b: Snapshot) {
    forall r, t :: (r, t) !in side && TagAt(a, r, t).Some? ==> TagAt(b, r, t) == TagAt(a, r, t)
  }

  // The delivery is published at this place, with everything it pins.
  ghost predicate PublishedAt(m: Medium, store: Snapshot, v: RecipeVerdict, r: RepoName, t: Tag, zone: Snapshot) {
    && Agrees(m, store, v) && m.cookbook(RecipeOn(m, v).name) == Some(r) && t == RecipeOn(m, v).version
    && TagAt(zone, r, t) == Some(v.digest) && AllHeld(NamesOn(m, m.graph[KeyOf(v)]), RecipeOn(m, v), zone)
  }

  // Outside `side`, what was tagged is tagged as it was, and a new tag is one of these deliveries,
  // never ahead of its ingredients.
  ghost predicate Safe(m: Medium, store: Snapshot, vs: seq<RecipeVerdict>, side: Places, a: Snapshot, s: Snapshot) {
    && TagsStand(side, a, s)
    && forall r, t :: (r, t) !in side && TagAt(s, r, t) != TagAt(a, r, t) ==> exists v :: v in vs && PublishedAt(m, store, v, r, t, s)
  }

  // The same of every state on the way.
  ghost predicate SafeRun(m: Medium, store: Snapshot, vs: seq<RecipeVerdict>, side: Places,
                          a: Snapshot, was: seq<Snapshot>, b: Snapshot, now: seq<Snapshot>) {
    && was <= now && Safe(m, store, vs, side, a, b)
    && forall k :: |was| <= k < |now| ==> Safe(m, store, vs, side, a, now[k])
  }

  // Everything the delivery needs is on the medium, and its cookbook tag is free for it.
  ghost predicate Ready(w: World, m: Medium, store: Snapshot, v: RecipeVerdict, zone: Snapshot) {
    && Agrees(m, store, v)
    && var names, f := NamesOn(m, m.graph[KeyOf(v)]), RecipeOn(m, v);
       AllSendable(w, names, f.ingredients, store) && WillLand(w, names, f, m.layout, In(store, m.graph[KeyOf(v)].repo), zone)
  }

  method ImportDelivery(store: Registry, zone: Registry, w: World, ghost rank: Digest -> nat, m: Medium, v: RecipeVerdict, retries: int)
    returns (landed: bool)
    requires Acyclic(w, rank) && store != zone && AllClosed(w, zone.repos)
    modifies store, zone
    ensures store.repos == old(store.repos)
    ensures Run(w, PlacesOf(m, store.repos, v), old(zone.repos), old(zone.trail), zone.repos, zone.trail)
    ensures !Agrees(m, store.repos, v) ==> !landed && zone.trail == old(zone.trail) && zone.repos == old(zone.repos)
    ensures TagsStand(SideOf(m, store.repos, v), old(zone.repos), zone.repos)
    ensures SafeRun(m, store.repos, [v], SideOf(m, store.repos, v), old(zone.repos), old(zone.trail), zone.repos, zone.trail)
    ensures landed ==> Landed(m, store.repos, v, SideOf(m, store.repos, v), zone.repos)
    ensures store.Calm() && zone.Calm() && Ready(w, m, store.repos, v, old(zone.repos)) ==> landed
  {
    var agrees := Check(store.repos, m, v);
    if !agrees {
      return false;
    }
    var unreadable := store.Fails();
    if unreadable {
      return false;
    }
    landed := Deliver(store, zone, w, rank, m, v, retries);
  }

  // The refusals, one by one.
  method Check(store: Snapshot, m: Medium, v: RecipeVerdict) returns (ok: bool)
    ensures ok <==> Agrees(m, store, v)
  {
    if KeyOf(v) !in m.graph {
      return false;
    }
    var rec := m.graph[KeyOf(v)];
    if rec.digest != v.digest || rec.repo != v.repo {
      return false;
    }
    if rec.repo == "" || rec.tag == "" || TagAt(store, rec.repo, rec.tag) != Some(rec.digest) {
      return false;
    }
    if m.document(rec.digest).None? {
      return false;
    }
    var f := m.document(rec.digest).value;
    ok := f.name == rec.name && f.version == rec.tag && forall i :: 0 <= i < |f.ingredients| ==> f.ingredients[i].version != "";
  }

  // The promotion of a delivery about which everything agrees.
  method Deliver(store: Registry, zone: Registry, w: World, ghost rank: Digest -> nat, m: Medium, v: RecipeVerdict, retries: int)
    returns (landed: bool)
    requires Acyclic(w, rank) && store != zone && AllClosed(w, zone.repos) && Agrees(m, store.repos, v)
    modifies store, zone
    ensures store.repos == old(store.repos)
    ensures Run(w, PlacesOf(m, store.repos, v), old(zone.repos), old(zone.trail), zone.repos, zone.trail)
    ensures TagsStand(SideOf(m, store.repos, v), old(zone.repos), zone.repos)
    ensures SafeRun(m, store.repos, [v], SideOf(m, store.repos, v), old(zone.repos), old(zone.trail), zone.repos, zone.trail)
    ensures landed ==> Landed(m, store.repos, v, SideOf(m, store.repos, v), zone.repos)
    ensures store.Calm() && zone.Calm() && Ready(w, m, store.repos, v, old(zone.repos)) ==> landed
  {
    var names, f := NamesOn(m, m.graph[KeyOf(v)]), RecipeOn(m, v);
    ghost var recipe, all;
    landed, recipe, all := PromoteRecipe(store, zone, w, rank, names, f, m.layout, false, retries);
    PromotedIsRun(w, names, f, m.layout, recipe, v.digest, old(zone.repos), old(zone.trail), zone.repos, zone.trail);
    PromotedIsSafeRun(w, m, store.repos, v, recipe, old(zone.repos), old(zone.trail), zone.repos, zone.trail);
    if landed {
      LandedIsPublished(names, f, m.layout, recipe, old(zone.repos), zone.repos);
    }
  }

  lemma PromotedIsSafe(w: World, m: Medium, store: Snapshot, v: RecipeVerdict, recipe: Option<Digest>, a: Snapshot, s: Snapshot)
    requires Agrees(m, store, v) && (recipe.None? || recipe == Some(v.digest))
    requires Promoted(w, NamesOn(m, m.graph[KeyOf(v)]), RecipeOn(m, v), m.layout, recipe, a, s)
    ensures Safe(m, store, [v], SideOf(m, store, v), a, s)
  {
    var names, f, side := NamesOn(m, m.graph[KeyOf(v)]), RecipeOn(m, v), SideOf(m, store, v);
    assert SidePlaces(names, f, recipe) <= side;
    forall r, t | (r, t) !in side && TagAt(s, r, t) != TagAt(a, r, t) ensures TagAt(a, r, t).None? && PublishedAt(m, store, v, r, t, s) {
      assert (r, t) in CookbookPlace(names, f);
      CookbookTagsAreSafe(w, names, f, m.layout, recipe, a, s, r, t);
    }
    assert v in [v];
  }

  lemma PromotedIsSafeRun(w: World, m: Medium, store: Snapshot, v: RecipeVerdict, recipe: Option<Digest>,
                          a: Snapshot, was: seq<Snapshot>, b: Snapshot, now: seq<Snapshot>)
    requires Agrees(m, store, v) && (recipe.None? || recipe == Some(v.digest)) && was <= now
    requires Promoted(w, NamesOn(m, m.graph[KeyOf(v)]), RecipeOn(m, v), m.layout, recipe, a, b)
    requires forall k :: |was| <= k < |now| ==> Promoted(w, NamesOn(m, m.graph[KeyOf(v)]), RecipeOn(m, v), m.layout, recipe, a, now[k])
    ensures SafeRun(m, store, [v], SideOf(m, store, v), a, was, b, now)
  {
    PromotedIsSafe(w, m, store, v, recipe, a, b);
    forall k | |was| <= k < |now| ensures Safe(m, store, [v], SideOf(m, store, v), a, now[k]) {
      PromotedIsSafe(w, m, store, v, recipe, a, now[k]);
    }
  }

  // One delivery after others: what they published stays, with what it pins.
  lemma SafeOn(w: World, p: Places, m: Medium, store: Snapshot, vs: seq<RecipeVerdict>, i: nat, s: Places, t: Places,
               a: Snapshot, b: Snapshot, c: Snapshot)
    requires i < |vs| && s <= t && Safe(m, store, vs, t, a, b) && Safe(m, store, [vs[i]], s, b, c) && Changes(w, p, b, c)
    ensures Safe(m, store, vs, t, a, c)
  {
    TagsStandOn(s, t, a, b, c);
    forall r, x | (r, x) !in t && TagAt(c, r, x) != TagAt(a, r, x) ensures exists v :: v in vs && PublishedAt(m, store, v, r, x, c) {
      if TagAt(c, r, x) != TagAt(b, r, x) {
        var v :| v in [vs[i]] && PublishedAt(m, store, v, r, x, c);
        assert v in vs;
      } else {
        var v :| v in vs && PublishedAt(m, store, v, r, x, b);
        AllHeldStays(w, p, NamesOn(m, m.graph[KeyOf(v)]), RecipeOn(m, v), b, c);
        assert PublishedAt(m, store, v, r, x, c);
      }
    }
  }

  lemma SafeRunOn(w: World, p: Places, m: Medium, store: Snapshot, vs: seq<RecipeVerdict>, i: nat, s: Places, t: Places,
                  a: Snapshot, ta: seq<Snapshot>, b: Snapshot, tb: seq<Snapshot>, c: Snapshot, tc: seq<Snapshot>)
    requires i < |vs| && s <= t && SafeRun(m, store, vs, t, a, ta, b, tb)
    requires SafeRun(m, store, [vs[i]], s, b, tb, c, tc) && Run(w, p, b, tb, c, tc)
    ensures SafeRun(m, store, vs, t, a, ta, c, tc)
  {
    SafeOn(w, p, m, store, vs, i, s, t, a, b, c);
    forall k | |ta| <= k < |tc| ensures Safe(m, store, vs, t, a, tc[k]) {
      if k < |tb| {
        assert tc[k] == tb[k];
      } else {
        SafeOn(w, p, m, store, vs, i, s, t, a, b, tc[k]);
      }
    }
  }

  lemma LandedIsPublished(names: Names, f: Recipe, layout: Layout, recipe: Option<Digest>, a: Snapshot, b: Snapshot)
    requires CookbookTagIs(names, f, layout, recipe, true, a, b) && recipe.Some? && names.cookbook(f.name).Some?
    ensures var cook := names.cookbook(f.name).value;
            (cook, f.version) !in SidePlaces(names, f, recipe) ==>
              var now := TagAt(b, cook, f.version); now.Some? && Identical(layout, now.value, recipe.value)
  {
    var cook := names.cookbook(f.name).value;
    if (cook, f.version) !in SidePlaces(names, f, recipe) {
      assert forall i :: 0 <= i < |f.ingredients| ==> !IngredientPlace(names, f.ingredients[i], cook, f.version);
      assert !SpelledLikeSignature(names, f, recipe, cook);
    }
  }

  lemma PromotedIsRun(w: World, names: Names, f: Recipe, layout: Layout, recipe: Option<Digest>, d: Digest,
                      a: Snapshot, was: seq<Snapshot>, b: Snapshot, now: seq<Snapshot>)
    requires was <= now && Promoted(w, names, f, layout, recipe, a, b) && (recipe.None? || recipe == Some(d))
    requires forall k :: |was| <= k < |now| ==> Promoted(w, names, f, layout, recipe, a, now[k])
    ensures Run(w, SidePlaces(names, f, Some(d)) + CookbookPlace(names, f), a, was, b, now)
  {
    var p, q := SidePlaces(names, f, recipe) + CookbookPlace(names, f), SidePlaces(names, f, Some(d)) + CookbookPlace(names, f);
    assert SidePlaces(names, f, recipe) <= SidePlaces(names, f, Some(d));
    RunWidens(w, p, q, a, was, b, now);
  }

  // What the cleared deliveries of a report may move, and nothing else of the report may.
  ghost function ClearedPlaces(m: Medium, store: Snapshot, cleared: seq<RecipeVerdict>): Places {
    iset v, p | v in cleared && p in PlacesOf(m, store, v) :: p
  }

  // All tags that some cleared delivery may move besides its own cookbook tag.
  ghost function ClearedSide(m: Medium, store: Snapshot, cleared: seq<RecipeVerdict>): Places {
    iset v, p | v in cleared && p in SideOf(m, store, v) :: p
  }

  function Count(outcomes: seq<bool>): nat {
    if outcomes == [] then 0 else Count(outcomes[..|outcomes| - 1]) + if outcomes[|outcomes| - 1] then 1 else 0
  }

  lemma {:induction false} CountAll(outcomes: seq<bool>)
    ensures Count(outcomes) <= |outcomes|
    ensures Count(outcomes) == |outcomes| <==> forall k :: 0 <= k < |outcomes| ==> outcomes[k]
  {
    if outcomes != [] {
      CountAll(outcomes[..|outcomes| - 1]);
    }
  }

  // Ready before the import, and no delivery ahead of it may write its cookbook tag.
  ghost predicate ReadyAt(w: World, m: Medium, store: Snapshot, cleared: seq<RecipeVerdict>, k: nat, zone: Snapshot)
    requires k < |cleared|
  {
    && Ready(w, m, store, cleared[k], zone)
    && forall j, cook :: 0 <= j < k && m.cookbook(RecipeOn(m, cleared[k]).name) == Some(cook) ==>
         (cook, RecipeOn(m, cleared[k]).version) !in PlacesOf(m, store, cleared[j])
  }

  // The deliveries that did not fail have landed; of those that were ready, none failed unless a request did.
  ghost predicate Outcomes(w: World, m: Medium, store: Snapshot, cleared: seq<RecipeVerdict>, outcomes: seq<bool>, calm: bool, side: Places,
                           a: Snapshot, b: Snapshot) {
    && |outcomes| <= |cleared|
    && (forall k :: 0 <= k < |outcomes| && outcomes[k] ==> Landed(m, store, cleared[k], side, b))
    && (forall k :: 0 <= k < |outcomes| && calm && ReadyAt(w, m, store, cleared, k, a) ==> outcomes[k])
  }

  // Only places of the first n deliveries were written.
  ghost predicate RestStands(m: Medium, store: Snapshot, cleared: seq<RecipeVerdict>, n: nat, a: Snapshot, b: Snapshot)
    requires n <= |cleared|
  {
    forall r, t :: (forall j :: 0 <= j < n ==> (r, t) !in PlacesOf(m, store, cleared[j])) ==> TagAt(b, r, t) == TagAt(a, r, t)
  }

  // Every cleared delivery in turn, each on its own; how many landed, and which.
  method PushCleared(store: Registry, zone: Registry, w: World, ghost rank: Digest -> nat, m: Medium, cleared: seq<RecipeVerdict>, retries: int)
    returns (delivered: nat, ghost outcomes: seq<bool>)
    requires Acyclic(w, rank) && store != zone && AllClosed(w, zone.repos)
    modifies store, zone
    ensures store.repos == old(store.repos)
    ensures Run(w, ClearedPlaces(m, store.repos, cleared), old(zone.repos), old(zone.trail), zone.repos, zone.trail)
    ensures TagsStand(ClearedSide(m, store.repos, cleared), old(zone.repos), zone.repos)
    ensures SafeRun(m, store.repos, cleared, ClearedSide(m, store.repos, cleared), old(zone.repos), old(zone.trail), zone.repos, zone.trail)
    ensures |outcomes| == |cleared| && delivered == Count(outcomes)
    ensures Outcomes(w, m, store.repos, cleared, outcomes, store.Calm() && zone.Calm(), ClearedSide(m, store.repos, cleared), old(zone.repos), zone.repos)
    ensures delivered == |cleared| ==> AllLanded(m, store.repos, cleared, ClearedSide(m, store.repos, cleared), zone.repos)
  {
    ghost var side, calm := ClearedSide(m, store.repos, cleared), store.Calm() && zone.Calm();
    delivered, outcomes := 0, [];
    for i := 0 to |cleared|
      invariant store.repos == old(store.repos) && |outcomes| == i && delivered == Count(outcomes)
      invariant Run(w, ClearedPlaces(m, store.repos, cleared), old(zone.repos), old(zone.trail), zone.repos, zone.trail)
      invariant AllClosed(w, zone.repos) && TagsStand(side, old(zone.repos), zone.repos)
      invariant SafeRun(m, store.repos, cleared, side, old(zone.repos), old(zone.trail), zone.repos, zone.trail)
      invariant Outcomes(w, m, store.repos, cleared, outcomes, calm, side, old(zone.repos), zone.repos)
      invariant RestStands(m, store.repos, cleared, i, old(zone.repos), zone.repos)
    {
      ghost var mid, trail := zone.repos, zone.trail;
      var landed := ImportDelivery(store, zone, w, rank, m, cleared[i], retries);
      WithinCleared(m, store.repos, cleared, i);
      ghost var p, s := PlacesOf(m, store.repos, cleared[i]), SideOf(m, store.repos, cleared[i]);
      RunOn(w, p, ClearedPlaces(m, store.repos, cleared), s, side,
            old(zone.repos), old(zone.trail), mid, trail, zone.repos, zone.trail);
      SafeRunOn(w, p, m, store.repos, cleared, i, s, side, old(zone.repos), old(zone.trail), mid, trail, zone.repos, zone.trail);
      OneMoreOutcome(w, p, m, store.repos, cleared, outcomes, landed, calm, s, side, old(zone.repos), mid, zone.repos);
      RestStandsMore(w, p, m, store.repos, cleared, i, old(zone.repos), mid, zone.repos);
      assert (outcomes + [landed])[..i] == outcomes;
      outcomes := outcomes + [landed];
      if landed {
        delivered := delivered + 1;
      }
    }
    CountAll(outcomes);
  }

  lemma OneMoreOutcome(w: World, p: Places, m: Medium, store: Snapshot, cleared: seq<RecipeVerdict>, outcomes: seq<bool>, landed: bool, calm: bool,
                       s: Places, t: Places, a: Snapshot, b: Snapshot, c: Snapshot)
    requires |outcomes| < |cleared| && Outcomes(w, m, store, cleared, outcomes, calm, t, a, b) && s <= t
    requires RestStands(m, store, cleared, |outcomes|, a, b) && Changes(w, p, b, c) && TagsStand(s, b, c)
    requires landed ==> Landed(m, store, cleared[|outcomes|], s, c)
    requires calm && Ready(w, m, store, cleared[|outcomes|], b) ==> landed
    ensures Outcomes(w, m, store, cleared, outcomes + [landed], calm, t, a, c)
  {
    var n, now := |outcomes|, outcomes + [landed];
    forall k | 0 <= k < |now| && now[k] ensures Landed(m, store, cleared[k], t, c) {
      if k < n {
        LandedStays(w, p, m, store, cleared[k], t, b, c);
      } else {
        LandedWithin(m, store, cleared[n], s, t, c);
      }
    }
    forall k | 0 <= k < |now| && calm && ReadyAt(w, m, store, cleared, k, a) ensures now[k] {
      if k == n {
        StillReady(w, m, store, cleared, n, a, b);
      }
    }
  }

  lemma RestStandsMore(w: World, p: Places, m: Medium, store: Snapshot, cleared: seq<RecipeVerdict>, n: nat, a: Snapshot, b: Snapshot, c: Snapshot)
    requires n < |cleared| && RestStands(m, store, cleared, n, a, b) && p == PlacesOf(m, store, cleared[n]) && Changes(w, p, b, c)
    ensures RestStands(m, store, cleared, n + 1, a, c)
  {
    forall r, x | forall j :: 0 <= j < n + 1 ==> (r, x) !in PlacesOf(m, store, cleared[j]) ensures TagAt(c, r, x) == TagAt(a, r, x) {
      assert (r, x) !in PlacesOf(m, store, cleared[n]);
    }
  }

  lemma StillReady(w: World, m: Medium, store: Snapshot, cleared: seq<RecipeVerdict>, k: nat, a: Snapshot, b: Snapshot)
    requires k < |cleared| && ReadyAt(w, m, store, cleared, k, a) && RestStands(m, store, cleared, k, a, b)
    ensures Ready(w, m, store, cleared[k], b)
  {
    var f := RecipeOn(m, cleared[k]);
    var cook := m.cookbook(f.name).value;
    assert TagAt(b, cook, f.version) == TagAt(a, cook, f.version);
  }

  // One run after another, under wider sets of places.
  lemma RunOn(w: World, p: Places, q: Places, s: Places, t: Places,
              a: Snapshot, ta: seq<Snapshot>, b: Snapshot, tb: seq<Snapshot>, c: Snapshot, tc: seq<Snapshot>)
    requires p <= q && s <= t && AllClosed(w, b)
    requires Run(w, q, a, ta, b, tb) && TagsStand(t, a, b)
    requires Run(w, p, b, tb, c, tc) && TagsStand(s, b, c)
    ensures Run(w, q, a, ta, c, tc) && AllClosed(w, c) && TagsStand(t, a, c)
  {
    RunWidens(w, p, q, b, tb, c, tc);
    RunTransitive(w, q, a, ta, b, tb, c, tc);
    ClosedStays(w, q, b, c);
    TagsStandOn(s, t, a, b, c);
  }

  lemma WithinCleared(m: Medium, store: Snapshot, cleared: seq<RecipeVerdict>, i: nat)
    requires i < |cleared|
    ensures PlacesOf(m, store, cleared[i]) <= ClearedPlaces(m, store, cleared)
    ensures SideOf(m, store, cleared[i]) <= ClearedSide(m, store, cleared)
  {
  }

  lemma TagsStandOn(p: Places, q: Places, a: Snapshot, b: Snapshot, c: Snapshot)
    requires p <= q && TagsStand(q, a, b) && TagsStand(p, b, c)
    ensures TagsStand(q, a, c) && TagsStand(q, b, c)
  {
  }

  lemma LandedWithin(m: Medium, store: Snapshot, v: RecipeVerdict, p: Places, q: Places, zone: Snapshot)
    requires p <= q && Landed(m, store, v, p, zone)
    ensures Landed(m, store, v, q, zone)
  {
  }

  ghost predicate AllLanded(m: Medium, store: Snapshot, vs: seq<RecipeVerdict>, side: Places, zone: Snapshot) {
    forall v :: v in vs ==> Landed(m, store, v, side, zone)
  }

  lemma LandedStays(w: World, allowed: Places, m: Medium, store: Snapshot, v: RecipeVerdict, side: Places, a: Snapshot, b: Snapshot)
    requires Changes(w, allowed, a, b) && TagsStand(side, a, b) && Landed(m, store, v, side, a)
    ensures Landed(m, store, v, side, b)
  {
    AllHeldStays(w, allowed, NamesOn(m, m.graph[KeyOf(v)]), RecipeOn(m, v), a, b);
  }

  // Verify, push, record. When the report arrives the destination is as it was; a blocked or failed
  // verification leaves it so; only places of cleared, agreeing deliveries move; and the import is
  // recorded exactly when every cleared delivery landed and the record could be written.
  method ImportMedia(store: Registry, zone: Registry, w: World, ghost rank: Digest -> nat, m: Medium, rep: Option<Report>, retries: int, writable: bool)
    returns (out: Outcome, ghost outcomes: seq<bool>)
    requires Acyclic(w, rank) && store != zone && AllClosed(w, zone.repos)
    modifies store, zone
    ensures store.repos == old(store.repos)
    ensures rep.None? || rep.value.blocked ==> !out.Imported? && zone.repos == old(zone.repos) && zone.trail == old(zone.trail)
    ensures rep.Some? ==> Run(w, ClearedPlaces(m, store.repos, Pushable(rep.value)), old(zone.repos), old(zone.trail), zone.repos, zone.trail)
    ensures out.Imported? && out.recorded ==>
              AllLanded(m, store.repos, Pushable(rep.value), ClearedSide(m, store.repos, Pushable(rep.value)), zone.repos)
    ensures rep.Some? ==> TagsStand(ClearedSide(m, store.repos, Pushable(rep.value)), old(zone.repos), zone.repos)
    ensures rep.Some? ==> SafeRun(m, store.repos, Pushable(rep.value), ClearedSide(m, store.repos, Pushable(rep.value)),
                                  old(zone.repos), old(zone.trail), zone.repos, zone.trail)
    ensures rep.Some? && !rep.value.blocked && store.Calm() ==> out.Imported?
    ensures out.Imported? ==>
              var cleared := Pushable(rep.value);
              && |outcomes| == |cleared| && out.delivered == Count(outcomes)
              && (out.recorded <==> writable && out.delivered == |cleared|)
              && Outcomes(w, m, store.repos, cleared, outcomes, store.Calm() && zone.Calm(), ClearedSide(m, store.repos, cleared), old(zone.repos), zone.repos)
    ensures out.Imported? && store.Calm() && zone.Calm() && AllReady(w, m, store.repos, Pushable(rep.value), old(zone.repos)) ==>
              out.delivered == |Pushable(rep.value)|
  {
    outcomes := [];
    if rep.None? {
      return VerificationFailed, outcomes;
    }
    if rep.value.blocked {
      return Refused, outcomes;
    }
    var unreadable := store.Fails();
    if unreadable {
      return Broken, outcomes;
    }
    var cleared := Pushable(rep.value);
    var delivered;
    delivered, outcomes := PushCleared(store, zone, w, rank, m, cleared, retries);
    CountAll(outcomes);
    out := Imported(delivered, delivered == |cleared| && writable);
  }

  ghost predicate AllReady(w: World, m: Medium, store: Snapshot, cleared: seq<RecipeVerdict>, zone: Snapshot) {
    forall k :: 0 <= k < |cleared| ==> ReadyAt(w, m, store, cleared, k, zone)
  }

  /******* An import *******/

  function Pinning(name: string, version: Tag, art: Digest, img: Digest): Recipe {
    Recipe(name, version, "", art, [Ingredient("base", "ref", version, img)])
  }

  // A medium with one recipe and one ingredient.
  function OnMedium(name: string, version: Tag, art: Digest, img: Digest): Medium {
    Medium(map[name + "@" + version := Delivery(name, "", art, "recipes", version, map["base" := "images"])],
           d => if d == art then Some(Pinning(name, version, art, img)) else None,
           _ => Some("lib"), _ => Some("shop"), d => if d == art then Some("document") else None)
  }

  function InMedium(version: Tag, art: Digest, img: Digest): Snapshot {
    map["recipes" := Repo({}, {art}, map[version := art]), "images" := Repo({}, {img}, map[])]
  }

  // Into an empty zone, with nothing failing: the delivery is published, its ingredient is there, and the
  // import is recorded.
  method OneDelivery(name: string, version: Tag, art: Digest, img: Digest) returns (out: Outcome, published: Option<Digest>, held: bool)
    requires version != "" && version !in SignatureTagsOf(art)
    ensures out == Imported(1, true) && published == Some(art) && held
  {
    var m, v := OnMedium(name, version, art, img), RecipeVerdict(name, version, art, "recipes", true);
    var store := new Registry(InMedium(version, art, img), _ => false, _ => false, _ => false);
    var zone := new Registry(map[], _ => false, _ => false, _ => false);
    var rep := Report(false, [v]);
    DeliveryReady(name, version, art, img);
    assert Cleared([v]) == [v] by { assert [v][1..] == []; }
    ghost var outcomes;
    out, outcomes := ImportMedia(store, zone, Everyday, _ => 0, m, Some(rep), 0, true);
    assert v in [v] && Landed(m, store.repos, v, ClearedSide(m, store.repos, [v]), zone.repos);
    assert RecipeOn(m, v).ingredients[0] == Ingredient("base", "ref", version, img);
    published := TagAt(zone.repos, "shop", version);
    held := img in In(zone.repos, "lib").manifests;
  }

  lemma DeliveryReady(name: string, version: Tag, art: Digest, img: Digest)
    requires version != "" && version !in SignatureTagsOf(art)
    ensures var m, v, store := OnMedium(name, version, art, img), RecipeVerdict(name, version, art, "recipes", true), InMedium(version, art, img);
            && AllReady(Everyday, m, store, [v], map[]) && AllClosed(Everyday, map[]) && ("shop", version) !in ClearedSide(m, store, [v])
            && Agrees(m, store, v) && RecipeOn(m, v) == Pinning(name, version, art, img)
  {
    var m, v, store := OnMedium(name, version, art, img), RecipeVerdict(name, version, art, "recipes", true), InMedium(version, art, img);
    assert |"recipes"| != |"images"| && |"shop"| != |"lib"|;
    assert In(store, "recipes").tags == map[version := art] && In(store, "images").manifests == {img};
    assert Needs(Everyday, art) == {} && Needs(Everyday, img) == {};
    assert Agrees(m, store, v);
    var names, f := NamesOn(m, m.graph[KeyOf(v)]), RecipeOn(m, v);
    assert f.ingredients == [Ingredient("base", "ref", version, img)];
    assert names.stored("ref", "base") == Some("images");
    assert !AddressedTo(names, f.ingredients[0], "shop", version);
    assert f.ingredients[..0] == [];
    assert LastAddressed(names, f.ingredients, "shop", version) == None;
  }
}
