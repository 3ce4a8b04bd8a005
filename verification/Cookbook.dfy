/**
 The names a destination gives: relocated references below its base path, and its own cookbook.

 A relocated path begins with a host. A cookbook whose path does not can therefore never be the
 place of an ingredient; one whose path does can be, and then a promotion re-points its tags.
 */
module Cookbook {
  import opened Wrappers
  import opened Text
  import opened Registry
  import opened Recipes
  import opened Relocate
  import opened SignatureTags
  import opened Promote

  const DefaultCookbook := "cookbook"

  // The names of an instance with a base prefix, promoting into a destination with a base path and
  // a cookbook path, from a store laid out by the same relocation.
  function NamesFor(base: string, basePath: string, cookbook: string): Names {
    Names((ref: string, _: string) => PathWithBase(base, ref),
          (ref: string) => var p := PathWithBase(base, ref); if p.None? then None else Some(Under(basePath, p.value)),
          (name: string) => Some(Under(basePath, cookbook + "/" + name)))
  }

  lemma UnderCancels(base: string, p: string, q: string)
    requires Under(base, p) == Under(base, q)
    ensures p == q
  {
    if base != "" {
      assert Under(base, p)[|base| + 1..] == p && Under(base, q)[|base| + 1..] == q;
    }
  }

  lemma FirstSegmentStays(a: string, b: string)
    ensures FirstSegment(a + "/" + b) == FirstSegment(a + "/")
  {
    var n := FirstOf(a, '/');
    assert a[..n] + a[n..] == a;
    assert (a + "/")[..n] == a[..n] && (a + "/" + b)[..n] == a[..n];
    FirstOfAt(a + "/", '/', n);
    FirstOfAt(a + "/" + b, '/', n);
  }

  // No ingredient lands in a cookbook whose path does not begin like a relocated one.
  lemma CookbookApart(base: string, basePath: string, cookbook: string, ref: string, name: string)
    requires if base == "" then !HostLike(FirstSegment(cookbook + "/")) else FirstSegment(base + "/") != FirstSegment(cookbook + "/")
    ensures var names := NamesFor(base, basePath, cookbook);
            names.relocated(ref).None? || names.relocated(ref) != names.cookbook(name)
  {
    var p := PathWithBase(base, ref);
    if p.Some? && Under(basePath, p.value) == Under(basePath, cookbook + "/" + name) {
      UnderCancels(basePath, p.value, cookbook + "/" + name);
      FirstSegmentStays(cookbook, name);
      if base == "" {
        RelocatedStartsWithHost(ref);
      } else {
        var l := SplitRef(ref).value;
        FirstSegmentStays(base, l.host + "/" + l.repo);
      }
      assert false;
    }
  }

  // Then the only tags of a cookbook that a promotion can write besides the recipe's version are
  // the recipe's own signatures.
  lemma CookbookIsSafe(base: string, basePath: string, cookbook: string, f: Recipe, recipe: Option<Digest>, t: Tag)
    requires if base == "" then !HostLike(FirstSegment(cookbook + "/")) else FirstSegment(base + "/") != FirstSegment(cookbook + "/")
    requires recipe.None? || t !in SignatureTagsOf(recipe.value)
    ensures var names := NamesFor(base, basePath, cookbook);
            (names.cookbook(f.name).value, t) !in SidePlaces(names, f, recipe)
  {
    var names := NamesFor(base, basePath, cookbook);
    forall i | 0 <= i < |f.ingredients| ensures !IngredientPlace(names, f.ingredients[i], names.cookbook(f.name).value, t) {
      CookbookApart(base, basePath, cookbook, f.ingredients[i].ref, f.name);
    }
  }

  // The default path is such a path.
  lemma DefaultCookbookIsPlain()
    ensures !HostLike(FirstSegment(DefaultCookbook + "/"))
  {
    var path := DefaultCookbook + "/";
    assert path[..8] == DefaultCookbook && path[8] == '/';
    FirstOfAt(path, '/', 8);
  }

  /******* A cookbook tag that is re-pointed *******/

  // A recipe whose one ingredient comes from where its cookbook is.
  function ClashingRecipe(shop: RepoName, name: string, version: Tag, img: Digest): Recipe {
    Recipe(name, version, shop, "", [Ingredient("base", shop, version, img)])
  }

  // For every cookbook path that begins with a host: nothing fails, the ingredient crosses, and the
  // published tag carries it instead of what was published.
  method Repointed(cookbook: string, name: string, version: Tag, was: Digest, img: Digest)
    returns (before: Option<Digest>, after: Option<Digest>)
    requires var shop := cookbook + "/" + name; PathWithBase("", shop) == Some(shop)
    requires version != "" && version !in SignatureTagsOf(img)
    ensures before == Some(was) && after == Some(img)
  {
    var shop, names := cookbook + "/" + name, NamesFor("", "", cookbook);
    var f := ClashingRecipe(shop, name, version, img);
    var zone := new Registry(map[shop := Repo({}, {was}, map[version := was])], _ => false, _ => false, _ => false);
    var store := new Registry(map[shop := Repo({}, {img}, map[])], _ => false, _ => false, _ => false);
    before := TagAt(zone.repos, shop, version);
    ClashReady(names, f, shop, img, store.repos, zone.repos);
    ghost var recipe, all;
    var landed;
    landed, recipe, all := PromoteRecipe(store, zone, Everyday, _ => 0, names, f, _ => None, false, 0);
    after := TagAt(zone.repos, shop, version);
  }

  lemma ClashReady(names: Names, f: Recipe, shop: RepoName, img: Digest, store: Snapshot, zone: Snapshot)
    requires f == ClashingRecipe(shop, f.name, f.version, img) && f.version !in SignatureTagsOf(img)
    requires names.stored(shop, "base") == names.relocated(shop) == names.cookbook(f.name) == Some(shop)
    requires In(store, shop) == Repo({}, {img}, map[])
    requires shop in zone && zone.Keys == {shop} && exists was :: zone[shop] == Repo({}, {was}, map[f.version := was])
    ensures AllClosed(Everyday, zone) && AllSendable(Everyday, names, f.ingredients, store)
    ensures LastAddressed(names, f.ingredients, shop, f.version) == Some(img)
    ensures !SpelledLikeSignature(names, f, None, shop)
  {
    assert f.ingredients[0] == Ingredient("base", shop, f.version, img);
    assert AddressedTo(names, f.ingredients[0], shop, f.version);
    assert Needs(Everyday, img) == {};
  }

  // Such a cookbook path exists.
  lemma HostedCookbook() returns (cookbook: string, name: string)
    ensures var shop := cookbook + "/" + name; PathWithBase("", shop) == Some(shop)
  {
    cookbook, name := "a.b/z", "s";
    var shop := cookbook + "/" + name;
    var host, repo := shop[..3], shop[4..];
    assert host == "a.b" && repo == "z/s" && shop == host + "/" + repo;
    assert ToLower(host) == host;
    NoDoubleSlash(repo);
    RefIsPlain(shop, host, repo);
  }

  lemma RefIsPlain(ref: string, host: string, repo: string)
    requires ref == host + "/" + repo && '/' !in host && '.' in host && ToLower(host) == host && Canonical(host) == host
    requires ':' !in ref && '@' !in ref && host != "" && host[0] != '['
    requires repo != "" && repo[0] != '/' && repo[|repo| - 1] != '/' && !Contains(repo, "//")
    ensures PathWithBase("", ref) == Some(ref)
  {
    assert ref[..|host|] == host && ref[|host|] == '/' && ref[|host| + 1..] == repo;
    FirstOfAt(ref, '/', |host|);
    NoScheme(ref);
    assert ':' !in host && ':' !in repo;
    FirstOfAt(host, ':', |host|);
    assert FoldPort(host) == Some(host);
  }

  lemma NoScheme(s: string)
    requires ':' !in s
    ensures !Contains(s, "://")
  {
    forall i | 0 <= i <= |s| ensures !OccursAt(s, "://", i) {
      if i + 3 <= |s| {
        assert s[i..i + 3][0] == s[i] && s[i] in s;
      }
    }
  }

  lemma NoDoubleSlash(s: string)
    requires forall i :: 0 <= i < |s| - 1 ==> s[i] != '/' || s[i + 1] != '/'
    ensures !Contains(s, "//")
  {
    forall i | 0 <= i <= |s| ensures !OccursAt(s, "//", i) {
      if i + 2 <= |s| {
        assert s[i..i + 2][0] == s[i] && s[i..i + 2][1] == s[i + 1];
      }
    }
  }
}
