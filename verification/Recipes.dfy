/**
 A recipe as its cookbook serves it.
 */
module Recipes {
  import opened Wrappers
  import opened Registry

  // One pinned ingredient: its nominal reference, and the version tag and digest it pins.
  datatype Ingredient = Ingredient(name: string, ref: string, version: Tag, digest: Digest)

  // A fetched recipe with its nominal repository and its artifact's digest. Its tag is its version,
  // which fetching established.
  datatype Recipe = Recipe(name: string, version: string, nominal: string, digest: Digest, ingredients: seq<Ingredient>)
}
