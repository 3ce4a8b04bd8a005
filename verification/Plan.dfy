/**
 The volume a plan announces: what an ingredient consists of, the ledger that counts each digest
 once, and how the announcement relates to what a copy then moves.
 */
module Plan {
  import opened Wrappers
  import opened Registry
  import opened Graph
  import opened Transfer

  /******* What an ingredient consists of *******/

  const MaxIndexDepth := 8

  // The manifests and blobs found so far, as the repository that would hold exactly them.
  class ContentSizes {
    var found: Repo

    const unserved: Digest -> bool      // what the source does not answer

    constructor (unserved: Digest -> bool)
      ensures found == Repo({}, {}, map[]) && this.unserved == unserved
    {
      found, this.unserved := Repo({}, {}, map[]), unserved;
    }

    // Walk one manifest, once: a digest seen before is not walked again, and an index nested too
    // deep is refused. The selection applies to the top level only.
    method Collect(w: World, ghost rank: Digest -> nat, d: Digest, sel: Selection, depth: nat) returns (ok: bool)
      requires Acyclic(w, rank)
      modifies this
      ensures d in old(found.manifests) ==> found == old(found) && (ok <==> depth <= MaxIndexDepth)
      ensures ok && d !in old(found.manifests) ==>
                Adds(w, old(found), found, {d} + Brought(w, rank, Children(w, d), sel, old(found.manifests)))
      ensures (forall x :: !unserved(x)) && depth <= 8 && Shallow(w, rank, d, 8 - depth) ==> ok
      decreases rank(d), 0
    {
      if depth > MaxIndexDepth {
        return false;
      }
      if d in found.manifests {
        return true;
      }
      ghost var before := found;
      found := found.(manifests := found.manifests + {d});
      if w.doc(d).Image? {
        found := found.(blobs := found.blobs + Needs(w, d));
        assert Children(w, d) == [];
        OneImage(w, rank, before, found, d, sel);
        return true;
      }
      ghost var start := found;
      var kids := w.doc(d).children;
      for i := 0 to |kids|
        invariant Adds(w, start, found, Brought(w, rank, kids[..i], sel, start.manifests))
      {
        assert kids[i] in Children(w, d);
        ok := CollectChild(w, rank, kids, i, sel, depth, start);
        if !ok {
          return;
        }
      }
      ok := true;
      assert kids[..|kids|] == kids;
      ParentFirst(w, rank, before, start, found, d, sel);
    }

    // The i-th child, if it is selected, with everything under it.
    method CollectChild(w: World, ghost rank: Digest -> nat, kids: seq<Digest>, i: nat, sel: Selection, depth: nat, ghost start: Repo)
      returns (ok: bool)
      requires Acyclic(w, rank) && i < |kids|
      requires Adds(w, start, found, Brought(w, rank, kids[..i], sel, start.manifests))
      modifies this
      ensures ok ==> Adds(w, start, found, Brought(w, rank, kids[..i + 1], sel, start.manifests))
      ensures (forall x :: !unserved(x)) && depth < 8 && Shallow(w, rank, kids[i], 7 - depth) ==> ok
      decreases rank(kids[i]), 1
    {
      if sel.Some? && kids[i] !in sel.value {
        BroughtStep(w, rank, kids, i, sel, start.manifests);
        return true;
      }
      if unserved(kids[i]) {
        return false;
      }
      ghost var mid := found;
      ok := Collect(w, rank, kids[i], None, depth + 1);
      if ok {
        if kids[i] !in mid.manifests {
          BroughtAll(w, rank, kids[i], mid.manifests);
        }
        AddsStep(w, rank, kids, i, sel, start, mid, found);
      }
    }
  }

  // Below d there are at most `left` more levels of indexes.
  ghost predicate Shallow(w: World, rank: Digest -> nat, d: Digest, left: nat)
    requires Acyclic(w, rank)
    decreases rank(d)
  {
    forall c :: c in Children(w, d) ==> left > 0 && Shallow(w, rank, c, left - 1)
  }

  lemma OneImage(w: World, rank: Digest -> nat, a: Repo, b: Repo, d: Digest, sel: Selection)
    requires Acyclic(w, rank) && Children(w, d) == []
    requires b == a.(manifests := a.manifests + {d}, blobs := a.blobs + Needs(w, d))
    ensures Adds(w, a, b, {d} + Brought(w, rank, Children(w, d), sel, a.manifests))
  {
    assert Brought(w, rank, [], sel, a.manifests) == {};
    assert NeedsOf(w, {d}) == Needs(w, d);
    assert {d} + {} == {d};
  }

  // A walk never climbs back above where it started.
  lemma {:induction false} WalkBelow(w: World, rank: Digest -> nat, d: Digest, go: iset<Digest>)
    requires Acyclic(w, rank)
    ensures forall x :: x in Walk(w, rank, d, go) ==> rank(x) <= rank(d)
    decreases rank(d)
  {
    forall c | c in Children(w, d) ensures forall x :: x in Walk(w, rank, c, go) ==> rank(x) <= rank(c) {
      WalkBelow(w, rank, c, go);
    }
  }

  // Noting the index before its children finds the same as noting it after.
  lemma ParentFirst(w: World, rank: Digest -> nat, a: Repo, b: Repo, c: Repo, d: Digest, sel: Selection)
    requires Acyclic(w, rank) && w.doc(d).Index?
    requires b == a.(manifests := a.manifests + {d})
    requires Adds(w, b, c, Brought(w, rank, Children(w, d), sel, b.manifests))
    ensures Adds(w, a, c, {d} + Brought(w, rank, Children(w, d), sel, a.manifests))
  {
    var s := Brought(w, rank, Children(w, d), sel, a.manifests);
    SameBrought(w, rank, d, sel, a.manifests);
    assert NeedsOf(w, {d} + s) == NeedsOf(w, s);
  }

  lemma SameBrought(w: World, rank: Digest -> nat, d: Digest, sel: Selection, held: set<Digest>)
    requires Acyclic(w, rank)
    ensures Brought(w, rank, Children(w, d), sel, held + {d}) == Brought(w, rank, Children(w, d), sel, held)
  {
    forall k | k in Children(w, d) ensures Walk(w, rank, k, Outside(held + {d})) == Walk(w, rank, k, Outside(held)) {
      SameBelow(w, rank, d, k, held);
    }
  }

  lemma SameBelow(w: World, rank: Digest -> nat, d: Digest, k: Digest, held: set<Digest>)
    requires Acyclic(w, rank) && rank(k) < rank(d)
    ensures Walk(w, rank, k, Outside(held + {d})) == Walk(w, rank, k, Outside(held))
  {
    var few, all := Walk(w, rank, k, Outside(held + {d})), Walk(w, rank, k, Outside(held));
    WalkBelow(w, rank, k, Outside(held));
    WalkBelow(w, rank, k, Outside(held + {d}));
    WalkClosed(w, rank, k, Outside(held));
    WalkClosed(w, rank, k, Outside(held + {d}));
    assert ClosedUnder(w, all, Outside(held + {d}));
    WalkLeast(w, rank, k, Outside(held + {d}), all);
    forall x, c | x in few && c in Children(w, x) && c in Outside(held) ensures c in few {
      assert rank(c) < rank(x) <= rank(k);
      assert c in Outside(held + {d});
    }
    WalkLeast(w, rank, k, Outside(held), few);
  }

  /******* The ledger *******/

  datatype Charge = Charge(d: Digest, needed: bool)

  datatype LedgerEntry = LedgerEntry(size: nat, needed: bool)

  ghost function Named(charges: seq<Charge>): set<Digest> {
    set c | c in charges :: c.d
  }

  ghost function NeededOf(charges: seq<Charge>): set<Digest> {
    set c | c in charges && c.needed :: c.d
  }

  class Dedup {
    var entries: map<Digest, LedgerEntry>

    constructor ()
      ensures entries == map[]
    {
      entries := map[];
    }

    // With the size a function of the digest, which content addressing makes it.
    ghost predicate Valid(w: World)
      reads this
    {
      forall d :: d in entries ==> entries[d].size == w.size(d)
    }

    ghost function Needed(): set<Digest>
      reads this
    {
      set d | d in entries && entries[d].needed
    }

    // The first size stays; needed once is needed.
    method Add(d: Digest, size: nat, needed: bool, ghost w: World)
      requires Valid(w) && size == w.size(d)
      modifies this
      ensures Valid(w) && entries.Keys == old(entries.Keys) + {d}
      ensures Needed() == old(Needed()) + if needed then {d} else {}
    {
      if d !in entries {
        entries := entries[d := LedgerEntry(size, needed)];
      } else {
        entries := entries[d := LedgerEntry(entries[d].size, entries[d].needed || needed)];
      }
    }

    // A whole list of charges: the outcome does not depend on their order or multiplicity.
    method AddAll(w: World, charges: seq<Charge>)
      requires Valid(w)
      modifies this
      ensures Valid(w) && entries.Keys == old(entries.Keys) + Named(charges)
      ensures Needed() == old(Needed()) + NeededOf(charges)
    {
      for i := 0 to |charges|
        invariant Valid(w) && entries.Keys == old(entries.Keys) + Named(charges[..i])
        invariant Needed() == old(Needed()) + NeededOf(charges[..i])
      {
        assert charges[..i + 1] == charges[..i] + [charges[i]];
        Add(charges[i].d, w.size(charges[i].d), charges[i].needed, w);
      }
      assert charges[..|charges|] == charges;
    }

    // Gross size, size to transfer, largest file to write - whatever order the entries come in.
    method Totals(ghost w: World) returns (total: nat, transfer: nat, largest: nat)
      requires Valid(w)
      ensures total == Total(w, entries.Keys) && transfer == Total(w, Needed())
      ensures largest <= transfer <= total
      ensures (forall d :: d in Needed() ==> w.size(d) <= largest)
              && (largest == 0 || exists d :: d in Needed() && w.size(d) == largest)
    {
      total, transfer, largest := 0, 0, 0;
      var left := entries.Keys;
      ghost var done: set<Digest>, counted: set<Digest> := {}, {};
      while left != {}
        invariant left <= entries.Keys && done == entries.Keys - left && counted == Needed() - left
        invariant total == Total(w, done) && transfer == Total(w, counted)
        invariant largest <= transfer <= total
        invariant (forall d :: d in counted ==> w.size(d) <= largest)
                  && (largest == 0 || exists d :: d in counted && w.size(d) == largest)
      {
        var d :| d in left;
        var e := entries[d];
        TotalMore(w, done, d);
        TotalMore(w, counted, d);
        total := total + e.size;
        done, left := done + {d}, left - {d};
        if e.needed {
          transfer := transfer + e.size;
          counted := counted + {d};
          if e.size > largest {
            largest := e.size;
          }
        }
      }
      assert done == entries.Keys && counted == Needed();
    }
  }

  lemma TotalMore(w: World, s: set<Digest>, x: Digest)
    requires x !in s
    ensures Total(w, s + {x}) == Total(w, s) + w.size(x)
  {
    TotalWith(w, s + {x}, x);
    assert s + {x} - {x} == s;
  }

  lemma {:induction false} TotalGrows(w: World, s: set<Digest>, t: set<Digest>)
    requires s <= t
    ensures Total(w, s) <= Total(w, t)
  {
    TotalDisjoint(w, s, t - s);
    assert s + (t - s) == t;
  }

  ghost function Everyone(needs: seq<set<Digest>>): set<Digest> {
    if needs == [] then {} else Everyone(needs[..|needs| - 1]) + needs[|needs| - 1]
  }

  ghost function SumOf(w: World, needs: seq<set<Digest>>): nat {
    if needs == [] then 0 else SumOf(w, needs[..|needs| - 1]) + Total(w, needs[|needs| - 1])
  }

  // Counting each digest once, the plan's volume is at most the sum of its recipes' and at least
  // each of them.
  lemma {:induction false} PlanBounds(w: World, needs: seq<set<Digest>>)
    ensures Total(w, Everyone(needs)) <= SumOf(w, needs)
    ensures forall i :: 0 <= i < |needs| ==> Total(w, needs[i]) <= Total(w, Everyone(needs))
  {
    if needs != [] {
      var rest, last := needs[..|needs| - 1], needs[|needs| - 1];
      PlanBounds(w, rest);
      var all := Everyone(rest);
      TotalDisjoint(w, all, last - all);
      assert all + (last - all) == all + last;
      TotalGrows(w, last - all, last);
      TotalGrows(w, last, all + last);
      TotalGrows(w, all, all + last);
      forall i | 0 <= i < |needs| ensures Total(w, needs[i]) <= Total(w, Everyone(needs)) {
        assert i < |needs| - 1 ==> needs[i] == rest[i];
      }
    }
  }

  function Sum(each: seq<nat>): nat {
    if each == [] then 0 else Sum(each[..|each| - 1]) + each[|each| - 1]
  }

  // The plan's ledger and one ledger per recipe, fed with the same charges: the plan's transfer is at
  // least each recipe's and at most their sum.
  method Summarize(w: World, recipes: seq<seq<Charge>>) returns (transfer: nat, each: seq<nat>)
    ensures |each| == |recipes| && forall i :: 0 <= i < |each| ==> each[i] == Total(w, NeededOf(recipes[i])) && each[i] <= transfer
    ensures transfer == Total(w, Everyone(PerRecipe(recipes))) && transfer <= Sum(each)
  {
    var ledger := new Dedup();
    each := [];
    assert PerRecipe(recipes[..0]) == [];
    for i := 0 to |recipes|
      invariant ledger.Valid(w) && ledger.Needed() == Everyone(PerRecipe(recipes[..i]))
      invariant |each| == i && forall k :: 0 <= k < i ==> each[k] == Total(w, NeededOf(recipes[k]))
      invariant Sum(each) == SumOf(w, PerRecipe(recipes[..i]))
    {
      var own := ChargeBoth(w, ledger, recipes[i]);
      PerRecipeMore(recipes, i);
      assert (each + [own])[..i] == each;
      each := each + [own];
    }
    assert recipes[..|recipes|] == recipes;
    PlanBounds(w, PerRecipe(recipes));
    assert forall k :: 0 <= k < |recipes| ==> PerRecipe(recipes)[k] == NeededOf(recipes[k]);
    var total, largest;
    total, transfer, largest := ledger.Totals(w);
  }

  // One recipe's charges, to the plan's ledger and to its own.
  method ChargeBoth(w: World, ledger: Dedup, charges: seq<Charge>) returns (own: nat)
    requires ledger.Valid(w)
    modifies ledger
    ensures ledger.Valid(w) && ledger.Needed() == old(ledger.Needed()) + NeededOf(charges)
    ensures own == Total(w, NeededOf(charges))
  {
    ledger.AddAll(w, charges);
    var local := new Dedup();
    local.AddAll(w, charges);
    assert local.Needed() == NeededOf(charges);
    var total, largest;
    total, own, largest := local.Totals(w);
  }

  ghost function PerRecipe(recipes: seq<seq<Charge>>): (needs: seq<set<Digest>>)
    ensures |needs| == |recipes|
  {
    seq(|recipes|, i requires 0 <= i < |recipes| => NeededOf(recipes[i]))
  }

  lemma PerRecipeMore(recipes: seq<seq<Charge>>, i: nat)
    requires i < |recipes|
    ensures PerRecipe(recipes[..i + 1]) == PerRecipe(recipes[..i]) + [NeededOf(recipes[i])]
    ensures Everyone(PerRecipe(recipes[..i + 1])) == Everyone(PerRecipe(recipes[..i])) + NeededOf(recipes[i])
    ensures forall w :: SumOf(w, PerRecipe(recipes[..i + 1])) == SumOf(w, PerRecipe(recipes[..i])) + Total(w, NeededOf(recipes[i]))
  {
    assert PerRecipe(recipes[..i + 1])[..i] == PerRecipe(recipes[..i]);
  }

  /******* Announced and moved *******/

  // The blobs announced for a repository are at least those the copy of the same selection moves, and
  // exactly those when every index the repository holds is whole.
  lemma PlanCoversCopy(w: World, rank: Digest -> nat, d: Digest, sel: Selection, a: Repo, b: Repo, plan: Repo)
    requires Acyclic(w, rank) && BlobClosed(w, a) && w.doc(d).Index?
    requires Adds(w, Repo({}, {}, map[]), plan, {d} + Brought(w, rank, Children(w, d), sel, {}))
    requires Adds(w, a, b, {d} + Brought(w, rank, Children(w, d), sel, a.manifests))
    ensures b.blobs - a.blobs <= plan.blobs - a.blobs
    ensures Total(w, b.blobs - a.blobs) <= Total(w, plan.blobs - a.blobs)
    ensures plan.blobs - a.blobs == b.blobs - a.blobs <==> plan.blobs <= b.blobs
    ensures ClosedUnder(w, a.manifests, Everything) ==> plan.blobs - a.blobs == b.blobs - a.blobs
  {
    var kids := Children(w, d);
    var all, some := {d} + Brought(w, rank, kids, sel, {}), {d} + Brought(w, rank, kids, sel, a.manifests);
    BroughtShrinks(w, rank, kids, sel, a.manifests);
    assert some <= all && plan.blobs == NeedsOf(w, all);
    AnnouncedBlobs(w, a, b, plan, all, some);
    TotalGrows(w, b.blobs - a.blobs, plan.blobs - a.blobs);
    if ClosedUnder(w, a.manifests, Everything) {
      BroughtCovers(w, rank, kids, sel, a.manifests);
      assert all <= a.manifests + some;
    }
  }

  lemma AnnouncedBlobs(w: World, a: Repo, b: Repo, plan: Repo, all: set<Digest>, some: set<Digest>)
    requires BlobClosed(w, a) && plan.blobs == NeedsOf(w, all) && b.blobs == a.blobs + NeedsOf(w, some) && some <= all
    ensures b.blobs - a.blobs <= plan.blobs - a.blobs
    ensures plan.blobs - a.blobs == b.blobs - a.blobs <==> plan.blobs <= b.blobs
    ensures all <= a.manifests + some ==> plan.blobs <= b.blobs
  {
    if plan.blobs - a.blobs == b.blobs - a.blobs {
      forall x | x in plan.blobs ensures x in b.blobs {
        assert x !in a.blobs ==> x in plan.blobs - a.blobs;
      }
    }
    if all <= a.manifests + some {
      forall x | x in NeedsOf(w, all) ensures x in b.blobs {
        var m :| m in all && x in Needs(w, m);
        assert m in some || m in a.manifests;
      }
    }
  }

  lemma BroughtShrinks(w: World, rank: Digest -> nat, kids: seq<Digest>, sel: Selection, held: set<Digest>)
    requires Acyclic(w, rank)
    ensures Brought(w, rank, kids, sel, held) <= Brought(w, rank, kids, sel, {})
  {
    forall c | c in kids ensures Walk(w, rank, c, Outside(held)) <= Walk(w, rank, c, Outside({})) {
      WalkClosed(w, rank, c, Outside({}));
      assert ClosedUnder(w, Walk(w, rank, c, Outside({})), Outside(held));
      WalkLeast(w, rank, c, Outside(held), Walk(w, rank, c, Outside({})));
    }
  }

  lemma BroughtCovers(w: World, rank: Digest -> nat, kids: seq<Digest>, sel: Selection, held: set<Digest>)
    requires Acyclic(w, rank) && ClosedUnder(w, held, Everything)
    ensures Brought(w, rank, kids, sel, {}) <= held + Brought(w, rank, kids, sel, held)
  {
    var s := held + Brought(w, rank, kids, sel, held);
    BroughtClosed(w, rank, kids, sel, held);
    BroughtHas(w, rank, kids, sel, held);
    forall x, c | x in s && c in Children(w, x) ensures c in s {
      assert c in Everything;
      assert c !in held ==> c in Outside(held);
    }
    forall c | c in kids && Selects(sel, c) ensures Walk(w, rank, c, Outside({})) <= s {
      WalkLeast(w, rank, c, Outside({}), s);
    }
  }
}
