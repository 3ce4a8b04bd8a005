/**
 What a recursive walk over manifests visits, and why skipping what is already there is sound.
 */
module Graph {
  import opened Wrappers
  import opened Registry

  ghost const Everything: iset<Digest> := iset d: Digest | true

  // The digests outside a set.
  ghost function Outside(held: set<Digest>): iset<Digest> {
    iset d: Digest | d !in held
  }

  // d and everything below it that is reached without entering a digest outside `go`.
  ghost function Walk(w: World, rank: Digest -> nat, d: Digest, go: iset<Digest>): set<Digest>
    requires Acyclic(w, rank)
    decreases rank(d), 1
  {
    {d} + Walks(w, rank, Children(w, d), go, rank(d))
  }

  ghost function Walks(w: World, rank: Digest -> nat, kids: seq<Digest>, go: iset<Digest>, bound: nat): set<Digest>
    requires Acyclic(w, rank) && forall c :: c in kids ==> rank(c) < bound
    decreases bound, 0
  {
    set c, x | c in kids && c in go && x in Walk(w, rank, c, go) :: x
  }

  // The whole closure of a digest.
  ghost function Closure(w: World, rank: Digest -> nat, d: Digest): set<Digest>
    requires Acyclic(w, rank)
  {
    Walk(w, rank, d, Everything)
  }

  // Entering a member's children that may be entered stays inside.
  ghost predicate ClosedUnder(w: World, s: set<Digest>, go: iset<Digest>) {
    forall x, c :: x in s && c in Children(w, x) && c in go ==> c in s
  }

  lemma {:induction false} WalkLeast(w: World, rank: Digest -> nat, d: Digest, go: iset<Digest>, s: set<Digest>)
    requires Acyclic(w, rank) && d in s && ClosedUnder(w, s, go)
    ensures Walk(w, rank, d, go) <= s
    decreases rank(d)
  {
    forall c | c in Children(w, d) && c in go ensures Walk(w, rank, c, go) <= s {
      WalkLeast(w, rank, c, go, s);
    }
  }

  lemma {:induction false} WalkClosed(w: World, rank: Digest -> nat, d: Digest, go: iset<Digest>)
    requires Acyclic(w, rank)
    ensures d in Walk(w, rank, d, go) && ClosedUnder(w, Walk(w, rank, d, go), go)
    decreases rank(d), 1
  {
    WalksClosed(w, rank, Children(w, d), go, rank(d));
    forall c | c in Children(w, d) && c in go ensures c in Walks(w, rank, Children(w, d), go, rank(d)) {
      assert c in Walk(w, rank, c, go);
    }
  }

  lemma {:induction false} WalksClosed(w: World, rank: Digest -> nat, kids: seq<Digest>, go: iset<Digest>, bound: nat)
    requires Acyclic(w, rank) && forall c :: c in kids ==> rank(c) < bound
    ensures ClosedUnder(w, Walks(w, rank, kids, go, bound), go)
    decreases bound, 0
  {
    var s := Walks(w, rank, kids, go, bound);
    forall x, c | x in s && c in Children(w, x) && c in go ensures c in s {
      var k :| k in kids && k in go && x in Walk(w, rank, k, go);
      WalkClosed(w, rank, k, go);
      assert c in Walk(w, rank, k, go);
    }
  }

  // Everything a walk reaches below its start is a digest it may enter.
  lemma {:induction false} WalkStays(w: World, rank: Digest -> nat, d: Digest, go: iset<Digest>)
    requires Acyclic(w, rank)
    ensures forall x :: x in Walk(w, rank, d, go) ==> x == d || x in go
    decreases rank(d)
  {
    forall c | c in Children(w, d) ensures forall x :: x in Walk(w, rank, c, go) ==> x == c || x in go {
      WalkStays(w, rank, c, go);
    }
  }

  // Skipping what this very transfer stored earlier loses nothing: a walk that also stops at s adds
  // the same to s as the one that does not.
  lemma SkipStored(w: World, rank: Digest -> nat, d: Digest, held: set<Digest>, s: set<Digest>)
    requires Acyclic(w, rank) && ClosedUnder(w, s, Outside(held))
    ensures s + Walk(w, rank, d, Outside(held + s)) == s + Walk(w, rank, d, Outside(held))
  {
    var few, all := Walk(w, rank, d, Outside(held + s)), Walk(w, rank, d, Outside(held));
    WalkClosed(w, rank, d, Outside(held + s));
    WalkClosed(w, rank, d, Outside(held));
    assert ClosedUnder(w, all, Outside(held + s));
    WalkLeast(w, rank, d, Outside(held + s), all);
    assert ClosedUnder(w, s + few, Outside(held));
    WalkLeast(w, rank, d, Outside(held), s + few);
  }

  // One more child.
  lemma WalksStep(w: World, rank: Digest -> nat, kids: seq<Digest>, i: nat, go: iset<Digest>, bound: nat)
    requires Acyclic(w, rank) && (forall c :: c in kids ==> rank(c) < bound) && i < |kids|
    ensures Walks(w, rank, kids[..i + 1], go, bound)
            == Walks(w, rank, kids[..i], go, bound) + if kids[i] in go then Walk(w, rank, kids[i], go) else {}
  {
    assert kids[..i + 1] == kids[..i] + [kids[i]];
  }

  /******* When a transfer that skips what is held brings the whole closure *******/

  // The indexes below d that are held but lack a child that the walk does not bring either.
  ghost predicate NoSparseIndexBelow(w: World, rank: Digest -> nat, d: Digest, held: set<Digest>)
    requires Acyclic(w, rank)
  {
    forall x, c :: x in held && x in Closure(w, rank, d) && c in Children(w, x) ==>
      c in held || c in Walk(w, rank, d, Outside(held))
  }

  // Exactly then: what was held together with what the walk visits covers the closure.
  lemma WholeClosureIff(w: World, rank: Digest -> nat, d: Digest, held: set<Digest>)
    requires Acyclic(w, rank)
    ensures Closure(w, rank, d) <= held + Walk(w, rank, d, Outside(held)) <==> NoSparseIndexBelow(w, rank, d, held)
  {
    var all, brought := Closure(w, rank, d), Walk(w, rank, d, Outside(held));
    WalkClosed(w, rank, d, Everything);
    WalkClosed(w, rank, d, Outside(held));
    if NoSparseIndexBelow(w, rank, d, held) {
      Covered(w, rank, d, held, all, brought);
    } else {
      var x, c :| x in held && x in all && c in Children(w, x) && c !in held && c !in brought;
      assert c in Everything;
      assert c in all;
    }
  }

  lemma Covered(w: World, rank: Digest -> nat, d: Digest, held: set<Digest>, all: set<Digest>, brought: set<Digest>)
    requires Acyclic(w, rank) && all == Closure(w, rank, d) && d in all && d in brought
    requires ClosedUnder(w, all, Everything) && ClosedUnder(w, brought, Outside(held))
    requires forall x, c :: x in held && x in all && c in Children(w, x) ==> c in held || c in brought
    ensures all <= held + brought
  {
    var s := set x | x in all && (x in held || x in brought);
    assert ClosedUnder(w, s, Everything);
    WalkLeast(w, rank, d, Everything, s);
  }
}
