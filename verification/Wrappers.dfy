/**
 What the parts of the model share: an optional value, the smaller and larger of two numbers, and how
 content and digests are written.
 */
module Wrappers {
  type Bytes = seq<bv8>
  type Digest = string

  datatype Option<+T> = None | Some(value: T)

  function Min(a: int, b: int): int { if a < b then a else b }
  function Max(a: int, b: int): int { if a > b then a else b }
}
