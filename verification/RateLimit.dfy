/**
 The failed-authentication limiter: token buckets per client origin, refilled lazily on access
 and swept when the table is full, against an unbounded table that refills eagerly.

 Time is in nanoseconds; budgets are exact reals (the rounding of a 64-bit float is not modelled).
 */
module RateLimit {
  const Burst := 10.0
  const RefillNanos := 30_000_000_000
  const MaxOrigins := 4096

  type Time = int

  // The budget that d nanoseconds give back.
  function Regained(d: int): real {
    d as real / RefillNanos as real
  }

  function Capped(x: real): real {
    if x > Burst then Burst else x
  }

  /******* The table *******/

  datatype Bucket = Bucket(remaining: real, updated: Time)

  function Refresh(b: Bucket, now: Time): Bucket {
    Bucket(if now > b.updated then Capped(b.remaining + Regained(now - b.updated)) else b.remaining, now)
  }

  type Table = map<string, Bucket>

  // Full buckets carry no information and are dropped; the others are refreshed.
  function Swept(t: Table, now: Time): Table {
    map o | o in t && Refresh(t[o], now).remaining < Burst :: Refresh(t[o], now)
  }

  // Whether inserting a new origin starts the table over.
  predicate StartsOver(t: Table, origin: string, now: Time) {
    origin !in t && |t| >= MaxOrigins && |Swept(t, now)| >= MaxOrigins
  }

  function Spent(level: real): real {
    if level - 1.0 < 0.0 then 0.0 else level - 1.0
  }

  // One origin's budget at an instant; an origin without a bucket has all of it.
  function LevelOf(t: Table, origin: string, now: Time): real {
    if origin in t then Refresh(t[origin], now).remaining else Burst
  }

  function Looked(t: Table, origin: string, now: Time): Table {
    if origin in t then t[origin := Refresh(t[origin], now)] else t
  }

  function Recorded(t: Table, origin: string, now: Time): Table {
    var kept := if origin in t || |t| < MaxOrigins then t
                else if StartsOver(t, origin, now) then map[]
                else Swept(t, now);
    kept[origin := Bucket(Spent(LevelOf(t, origin, now)), now)]
  }

  predicate Exhausts(level: real) {
    level >= 1.0 && Spent(level) < 1.0
  }

  /******* The ideal: every origin has a bucket, refilled at every instant *******/

  datatype Ideal = Ideal(levels: map<string, real>, clock: Time)

  function Level(i: Ideal, origin: string): real {
    if origin in i.levels then i.levels[origin] else Burst
  }

  function Advance(i: Ideal, now: Time): Ideal
    requires i.clock <= now
  {
    Ideal(map o | o in i.levels :: Capped(i.levels[o] + Regained(now - i.clock)), now)
  }

  function Spend(i: Ideal, origin: string): Ideal {
    i.(levels := i.levels[origin := Spent(Level(i, origin))])
  }

  ghost predicate InRange(i: Ideal) {
    forall o :: o in i.levels ==> 0.0 <= i.levels[o] <= Burst
  }

  // The table knows every origin's level as of the ideal's clock.
  ghost predicate Agrees(t: Table, i: Ideal) {
    && InRange(i)
    && (forall o :: o in t ==> t[o].updated <= i.clock && 0.0 <= t[o].remaining <= Burst)
    && (forall o :: Level(i, o) == if o in t then Refresh(t[o], i.clock).remaining else Burst)
  }

  lemma RegainedAdds(a: int, b: int)
    ensures Regained(a + b) == Regained(a) + Regained(b)
    ensures a >= 0 ==> Regained(a) >= 0.0
  {
    assert (a + b) as real == a as real + b as real;
  }

  // Refilling once over a whole interval is the same as refilling at every instant of it.
  lemma RefreshTwice(b: Bucket, mid: Time, now: Time)
    requires b.updated <= mid <= now && b.remaining <= Burst
    ensures Refresh(Refresh(b, mid), now) == Refresh(b, now)
    ensures Refresh(b, now).remaining == Capped(Refresh(b, mid).remaining + Regained(now - mid))
  {
    RegainedAdds(mid - b.updated, now - mid);
    RegainedAdds(0, 0);
  }

  lemma AdvanceLevel(i: Ideal, now: Time, o: string)
    requires i.clock <= now && InRange(i)
    ensures Level(Advance(i, now), o) == Capped(Level(i, o) + Regained(now - i.clock))
    ensures 0.0 <= Level(i, o) <= Burst
  {
    RegainedAdds(now - i.clock, 0);
  }

  lemma AdvanceAgrees(t: Table, i: Ideal, now: Time)
    requires Agrees(t, i) && i.clock <= now
    ensures Agrees(t, Advance(i, now))
  {
    var j := Advance(i, now);
    RegainedAdds(now - i.clock, 0);
    forall o ensures Level(j, o) == if o in t then Refresh(t[o], now).remaining else Burst {
      AdvanceLevel(i, now, o);
      if o in t {
        RefreshTwice(t[o], i.clock, now);
      }
    }
  }

  lemma RefreshOneAgrees(t: Table, i: Ideal, origin: string)
    requires Agrees(t, i) && origin in t
    ensures Agrees(t[origin := Refresh(t[origin], i.clock)], i)
  {
    RegainedAdds(i.clock - t[origin].updated, 0);
    RefreshTwice(t[origin], i.clock, i.clock);
    var u := t[origin := Refresh(t[origin], i.clock)];
    forall o ensures Level(i, o) == if o in u then Refresh(u[o], i.clock).remaining else Burst {}
  }

  lemma SweptAgrees(t: Table, i: Ideal)
    requires Agrees(t, i)
    ensures Agrees(Swept(t, i.clock), i)
  {
    var u := Swept(t, i.clock);
    forall o ensures Level(i, o) == if o in u then Refresh(u[o], i.clock).remaining else Burst {
      if o in t {
        RefreshTwice(t[o], i.clock, i.clock);
        RegainedAdds(i.clock - t[o].updated, 0);
      }
    }
    forall o | o in u ensures u[o].updated <= i.clock && 0.0 <= u[o].remaining <= Burst {
      RegainedAdds(i.clock - t[o].updated, 0);
    }
  }

  lemma SpendAgrees(t: Table, i: Ideal, origin: string)
    requires Agrees(t, i)
    ensures Agrees(t[origin := Bucket(Spent(Level(i, origin)), i.clock)], Spend(i, origin))
  {
    var u := t[origin := Bucket(Spent(Level(i, origin)), i.clock)];
    var j := Spend(i, origin);
    forall o ensures Level(j, o) == if o in u then Refresh(u[o], j.clock).remaining else Burst {
      assert Level(i, o) == if o in t then Refresh(t[o], i.clock).remaining else Burst;
    }
  }

  /******* The limiter *******/

  class FailureLimiter {
    var buckets: Table

    constructor ()
      ensures buckets == map[]
    {
      buckets := map[];
    }

    // An authentication attempt may proceed: consumes nothing.
    method Allowed(origin: string, now: Time) returns (r: bool)
      modifies this
      ensures r == (LevelOf(old(buckets), origin, now) >= 1.0)
      ensures buckets == Looked(old(buckets), origin, now)
      ensures |buckets| == |old(buckets)|
    {
      if origin !in buckets {
        return true;
      }
      var b := Refresh(buckets[origin], now);
      assert buckets[origin := b].Keys == buckets.Keys;
      buckets := buckets[origin := b];
      r := b.remaining >= 1.0;
    }

    // Bound the table before a new origin is inserted.
    method Sweep(now: Time)
      modifies this
      ensures buckets == if |old(buckets)| < MaxOrigins then old(buckets)
                         else if |Swept(old(buckets), now)| >= MaxOrigins then map[]
                         else Swept(old(buckets), now)
      ensures |buckets| < MaxOrigins
    {
      if |buckets| < MaxOrigins {
        return;
      }
      var todo := buckets.Keys;
      ghost var before := buckets;
      while todo != {}
        invariant todo <= before.Keys
        invariant forall o :: o in buckets <==>
                    o in todo || (o in before && Refresh(before[o], now).remaining < Burst)
        invariant forall o :: o in buckets ==>
                    buckets[o] == if o in todo then before[o] else Refresh(before[o], now)
      {
        var o :| o in todo;
        var b := Refresh(buckets[o], now);
        buckets := buckets[o := b];
        if b.remaining >= Burst {
          buckets := buckets - {o};
        }
        todo := todo - {o};
      }
      assert buckets == Swept(before, now);
      if |buckets| >= MaxOrigins {
        buckets := map[];
      }
    }

    // Spend one unit; true when this failure is the one that exhausted the budget.
    method Record(origin: string, now: Time) returns (exhausted: bool)
      modifies this
      ensures buckets == Recorded(old(buckets), origin, now)
      ensures exhausted == Exhausts(LevelOf(old(buckets), origin, now))
      ensures |old(buckets)| <= 4096 ==> |buckets| <= 4096
    {
      if origin !in buckets {
        Sweep(now);
        buckets := buckets[origin := Bucket(Burst, now)];
      }
      var b := Refresh(buckets[origin], now);
      var left := b.remaining - 1.0;
      if left < 0.0 {
        left := 0.0;
      }
      assert buckets[origin := Bucket(left, now)].Keys == buckets.Keys;
      buckets := buckets[origin := Bucket(left, now)];
      exhausted := b.remaining >= 1.0 && left < 1.0;
    }
  }

  /******* Whole runs *******/

  // A client checks the limiter, and records a failure only after being allowed to try.
  datatype Attempt = Attempt(origin: string, at: Time, fails: bool)
  datatype Verdict = Verdict(allowed: bool, exhausted: bool)

  predicate Ordered(from: Time, es: seq<Attempt>)
    decreases |es|
  {
    es == [] || (from <= es[0].at && Ordered(es[0].at, es[1..]))
  }

  function VerdictAt(level: real, e: Attempt): Verdict {
    Verdict(level >= 1.0, e.fails && Exhausts(level))
  }

  function TableStep(t: Table, e: Attempt): Table {
    var looked := Looked(t, e.origin, e.at);
    if Records(t, e) then Recorded(looked, e.origin, e.at) else looked
  }

  // An attempt that was allowed and failed is the only one that writes the table.
  predicate Records(t: Table, e: Attempt) {
    LevelOf(t, e.origin, e.at) >= 1.0 && e.fails
  }

  function IdealStep(i: Ideal, e: Attempt): Ideal
    requires i.clock <= e.at
  {
    var now := Advance(i, e.at);
    if Level(now, e.origin) >= 1.0 && e.fails then Spend(now, e.origin) else now
  }

  function TableRun(t: Table, es: seq<Attempt>): seq<Verdict>
    decreases |es|
  {
    if es == [] then [] else
    [VerdictAt(LevelOf(t, es[0].origin, es[0].at), es[0])] + TableRun(TableStep(t, es[0]), es[1..])
  }

  function IdealRun(i: Ideal, es: seq<Attempt>): seq<Verdict>
    requires Ordered(i.clock, es)
    decreases |es|
  {
    if es == [] then [] else
    [VerdictAt(Level(Advance(i, es[0].at), es[0].origin), es[0])] + IdealRun(IdealStep(i, es[0]), es[1..])
  }

  // No insertion of the run finds every tracked origin still hot.
  predicate NeverStartsOver(t: Table, es: seq<Attempt>)
    decreases |es|
  {
    es == [] ||
    ((Records(t, es[0]) ==> !StartsOver(Looked(t, es[0].origin, es[0].at), es[0].origin, es[0].at))
     && NeverStartsOver(TableStep(t, es[0]), es[1..]))
  }

  lemma StepAgrees(t: Table, i: Ideal, e: Attempt)
    requires Agrees(t, i) && i.clock <= e.at
    requires Records(t, e) ==> !StartsOver(Looked(t, e.origin, e.at), e.origin, e.at)
    ensures LevelOf(t, e.origin, e.at) == Level(Advance(i, e.at), e.origin)
    ensures Agrees(TableStep(t, e), IdealStep(i, e))
  {
    var now := Advance(i, e.at);
    AdvanceAgrees(t, i, e.at);
    var looked := Looked(t, e.origin, e.at);
    if e.origin in t {
      RefreshOneAgrees(t, now, e.origin);
      RefreshTwice(t[e.origin], e.at, e.at);
    }
    assert Agrees(looked, now);
    if Records(t, e) {
      SweptAgrees(looked, now);
      var kept := if e.origin in looked || |looked| < MaxOrigins then looked else Swept(looked, e.at);
      SpendAgrees(kept, now, e.origin);
    }
  }

  // The swept, lazily refilled table answers exactly like the ideal one, over every run.
  lemma {:induction false} RunsAgree(t: Table, i: Ideal, es: seq<Attempt>)
    requires Agrees(t, i) && Ordered(i.clock, es) && NeverStartsOver(t, es)
    ensures TableRun(t, es) == IdealRun(i, es)
    decreases |es|
  {
    if es != [] {
      StepAgrees(t, i, es[0]);
      RunsAgree(TableStep(t, es[0]), IdealStep(i, es[0]), es[1..]);
    }
  }

  // A table that starts over forgets every other origin's failures.
  lemma StartingOverForgets(t: Table, origin: string, other: string, now: Time)
    requires StartsOver(t, origin, now) && other != origin
    ensures LevelOf(Recorded(t, origin, now), other, now) == Burst
  {
  }

  function Admitted(origin: string, es: seq<Attempt>, vs: seq<Verdict>): nat
    requires |es| == |vs|
  {
    if es == [] then 0 else
    (if es[0].origin == origin && es[0].fails && vs[0].allowed then 1 else 0) + Admitted(origin, es[1..], vs[1..])
  }

  lemma {:induction false} IdealBudget(i: Ideal, es: seq<Attempt>, origin: string, end: Time)
    requires InRange(i) && Ordered(i.clock, es)
    requires i.clock <= end && forall k :: 0 <= k < |es| ==> es[k].at <= end
    ensures |IdealRun(i, es)| == |es|
    ensures Admitted(origin, es, IdealRun(i, es)) as real <= Level(i, origin) + Regained(end - i.clock)
    decreases |es|
  {
    RegainedAdds(end - i.clock, 0);
    if es != [] {
      var e := es[0];
      var now, next := Advance(i, e.at), IdealStep(i, e);
      AdvanceLevel(i, e.at, origin);
      AdvanceLevel(i, e.at, e.origin);
      RegainedAdds(e.at - i.clock, end - e.at);
      assert InRange(next) by {
        RegainedAdds(e.at - i.clock, 0);
      }
      IdealBudget(next, es[1..], origin, end);
      assert IdealRun(i, es)[1..] == IdealRun(next, es[1..]);
    }
  }

  // Between t0 and t1 no origin gets more failures through than the burst plus what refilled,
  // whatever the other origins do meanwhile.
  lemma FailureBound(t: Table, i: Ideal, es: seq<Attempt>, origin: string, t0: Time, t1: Time)
    requires Agrees(t, i) && i.clock <= t0 && Ordered(t0, es) && NeverStartsOver(t, es)
    requires t0 <= t1 && forall k :: 0 <= k < |es| ==> es[k].at <= t1
    ensures |TableRun(t, es)| == |es|
    ensures Admitted(origin, es, TableRun(t, es)) as real <= Burst + Regained(t1 - t0)
  {
    AdvanceAgrees(t, i, t0);
    var start := Advance(i, t0);
    RunsAgree(t, start, es);
    IdealBudget(start, es, origin, t1);
    assert Level(start, origin) <= Burst;
  }

  // The signal marks the transition and nothing else: the origin was allowed to try, and one
  // instant later it is not.
  lemma SignalIsTheTransition(t: Table, e: Attempt)
    requires forall o :: o in t ==> t[o].remaining <= Burst
    ensures VerdictAt(LevelOf(t, e.origin, e.at), e).exhausted
            <==> && LevelOf(t, e.origin, e.at) >= 1.0
                 && LevelOf(TableStep(t, e), e.origin, e.at) < 1.0
  {
    if e.origin in t && t[e.origin].updated <= e.at {
      RefreshTwice(t[e.origin], e.at, e.at);
    }
  }

  /******* The budget itself *******/

  function Repeat(e: Attempt, n: nat): seq<Attempt> {
    seq(n, _ => e)
  }

  // From a budget of `left` units, that many failures at one instant are admitted, and the last of them
  // is the one that is signalled.
  lemma {:induction false} BurstAtOnce(t: Table, e: Attempt, left: nat, n: nat, k: nat)
    requires LevelOf(t, e.origin, e.at) == left as real && left <= 10 && e.fails && (e.origin in t || |t| < MaxOrigins)
    requires k < n
    ensures |TableRun(t, Repeat(e, n))| == n && TableRun(t, Repeat(e, n))[k] == Verdict(k < left, k + 1 == left)
    decreases n
  {
    var es, next := Repeat(e, n), TableStep(t, e);
    assert es[0] == e && es[1..] == Repeat(e, n - 1);
    SameInstant(t, e, left);
    if k > 0 {
      BurstAtOnce(next, e, if left > 0 then left - 1 else 0, n - 1, k - 1);
    } else if n > 1 {
      BurstAtOnce(next, e, if left > 0 then left - 1 else 0, n - 1, 0);
    }
  }

  lemma SameInstant(t: Table, e: Attempt, left: nat)
    requires LevelOf(t, e.origin, e.at) == left as real && left <= 10 && e.fails && (e.origin in t || |t| < MaxOrigins)
    ensures var next := TableStep(t, e);
            && LevelOf(next, e.origin, e.at) == (if left > 0 then left - 1 else 0) as real
            && (e.origin in next || |next| < MaxOrigins)
            && VerdictAt(LevelOf(t, e.origin, e.at), e) == Verdict(0 < left, 1 == left)
  {
  }

  // An origin nobody has seen gets exactly ten failures through at one instant.
  lemma TenAtOnce(t: Table, e: Attempt, n: nat, k: nat)
    requires e.origin !in t && |t| < 4096 && e.fails && k < n
    ensures |TableRun(t, Repeat(e, n))| == n && TableRun(t, Repeat(e, n))[k] == Verdict(k < 10, k == 9)
  {
    BurstAtOnce(t, e, 10, n, k);
  }

  // An exhausted origin gets one unit back every thirty seconds, up to ten.
  lemma OneEveryThirtySeconds(t: Table, origin: string, since: Time, elapsed: nat, k: nat)
    requires origin in t && t[origin] == Bucket(0.0, since) && 0 < k <= 10
    ensures LevelOf(t, origin, since + elapsed) >= k as real <==> elapsed >= k * 30_000_000_000
    ensures LevelOf(t, origin, since + elapsed) <= 10.0
  {
    Quotient(elapsed, k);
  }

  lemma Quotient(elapsed: nat, k: nat)
    ensures Regained(elapsed) >= k as real <==> elapsed >= k * 30_000_000_000
  {
    var unit := 30_000_000_000.0;
    assert Regained(elapsed) * unit == elapsed as real;
    assert (k * 30_000_000_000) as real == k as real * unit;
  }
}
