/**
 The per-digest lock in front of the spools, for any number of concurrent callers.

 Each transition is one critical section, one channel operation or one return of the program
 text; callers interleave arbitrarily. The two faults a release could commit - closing a channel
 that is not there, or one already closed - are modelled as `panicked` instead of being ruled out.
 */
module SpoolLock {
  import opened Wrappers

  type Chan = nat

  datatype Phase =
    | Idle
    | Trying(d: Digest)                       // about to look at the table
    | Waiting(d: Digest, on: Chan)            // found it taken
    | Opening(d: Digest)                      // owns the spool, inside Open
    | Reading(d: Digest, drained: bool)       // owns the spool through the reader it was given
    | Releasing(d: Digest, ch: Option<Chan>, reader: Option<bool>) // took its entry out, channel not closed yet
    | Closed(d: Digest, drained: bool)        // holds a reader that was closed

  datatype Event = Took(who: nat, d: Digest) | Gave(who: nat, d: Digest)

  datatype State = State(
    locks: map<Digest, Chan>,
    closed: set<Chan>,
    next: Chan,
    callers: seq<Phase>,
    log: seq<Event>,
    panicked: bool)

  datatype Kind =
    | Ask(d: Digest) | TryLock | Wake | Cancel
    | OpenFails | OpenSucceeds | Drain | CloseReader | CloseAgain | Forget
    | FinishRelease

  datatype Step = Step(who: nat, kind: Kind)

  function Start(n: nat): State {
    State(map[], {}, 0, seq(n, _ => Idle), [], false)
  }

  predicate Enabled(s: State, t: Step) {
    && t.who < |s.callers|
    && var p := s.callers[t.who];
       match t.kind
       case Ask(_) => p.Idle?
       case TryLock => p.Trying?
       case Wake => p.Waiting? && p.on in s.closed
       case Cancel => p.Waiting?
       case OpenFails => p.Opening?
       case OpenSucceeds => p.Opening?
       case Drain => p.Reading?
       case CloseReader => p.Reading?
       case CloseAgain => p.Closed?
       case Forget => p.Closed?
       case FinishRelease => p.Releasing?
  }

  // The critical section of a release: the entry goes, whatever it was. `reader` says whether a reader
  // is being closed, and whether it was drained.
  function TakeOut(s: State, who: nat, d: Digest, reader: Option<bool>): State
    requires who < |s.callers|
  {
    var ch := if d in s.locks then Some(s.locks[d]) else None;
    s.(locks := s.locks - {d}, log := s.log + [Gave(who, d)],
       callers := s.callers[who := Releasing(d, ch, reader)])
  }

  function Next(s: State, t: Step): State
    requires Enabled(s, t)
  {
    var i := t.who;
    var p := s.callers[i];
    match t.kind
    case Ask(d) => s.(callers := s.callers[i := Trying(d)])
    case TryLock =>
      if p.d in s.locks then
        s.(callers := s.callers[i := Waiting(p.d, s.locks[p.d])])
      else
        s.(locks := s.locks[p.d := s.next], next := s.next + 1, log := s.log + [Took(i, p.d)],
           callers := s.callers[i := Opening(p.d)])
    case Wake => s.(callers := s.callers[i := Trying(p.d)])
    case Cancel => s.(callers := s.callers[i := Idle])
    case OpenFails => TakeOut(s, i, p.d, None)
    case OpenSucceeds => s.(callers := s.callers[i := Reading(p.d, false)])
    case Drain => s.(callers := s.callers[i := Reading(p.d, true)])
    case CloseReader => TakeOut(s, i, p.d, Some(p.drained))
    case CloseAgain => s
    case Forget => s.(callers := s.callers[i := Idle])
    case FinishRelease =>
      var s' := s.(callers := s.callers[i := if p.reader.Some? then Closed(p.d, p.reader.value) else Idle]);
      match p.ch
      case None => s'.(panicked := true)
      case Some(ch) => s'.(closed := s.closed + {ch}, panicked := s.panicked || ch in s.closed)
  }

  ghost predicate IsRun(run: seq<State>) {
    && run != [] && (exists n: nat :: run[0] == Start(n))
    && forall k :: 0 <= k < |run| - 1 ==> StepsTo(run[k], run[k + 1])
  }

  ghost predicate StepsTo(s: State, s': State) {
    exists t :: Enabled(s, t) && s' == Next(s, t)
  }

  /******* What every reachable state satisfies *******/

  predicate Owns(p: Phase, d: Digest) {
    (p.Opening? || p.Reading?) && p.d == d
  }

  // Whose channel it is to close: an entry of the table, or one taken out and not closed yet.
  predicate OutForClosing(p: Phase, d: Digest, ch: Chan) {
    p.Releasing? && p.d == d && p.ch == Some(ch)
  }

  // The caller the log says owns d: the last event about d decides.
  function LoggedOwner(log: seq<Event>, d: Digest): Option<nat> {
    if log == [] then None
    else
      var e := log[|log| - 1];
      if e.d != d then LoggedOwner(log[..|log| - 1], d)
      else if e.Took? then Some(e.who) else None
  }

  // For each digest, takes and gives alternate, and each give is by whoever took last.
  predicate Alternates(log: seq<Event>) {
    log == [] || (
      var before, e := log[..|log| - 1], log[|log| - 1];
      && Alternates(before)
      && LoggedOwner(before, e.d) == if e.Took? then None else Some(e.who))
  }

  // The log, the table and the callers agree on who owns what.
  ghost predicate LogAgrees(s: State) {
    && Alternates(s.log)
    && (forall d :: d in s.locks <==> LoggedOwner(s.log, d).Some?)
    && forall d, i: nat :: LoggedOwner(s.log, d) == Some(i) <==> i < |s.callers| && Owns(s.callers[i], d)
  }

  // Every channel in play is open, and no two of them are the same.
  ghost predicate ChannelsApart(s: State) {
    && (forall d :: d in s.locks ==> s.locks[d] < s.next && s.locks[d] !in s.closed)
    && (forall ch :: ch in s.closed ==> ch < s.next)
    && (forall d, e :: d in s.locks && e in s.locks && s.locks[d] == s.locks[e] ==> d == e)
    && (forall i :: 0 <= i < |s.callers| && s.callers[i].Releasing? ==>
          && s.callers[i].ch.Some? && s.callers[i].ch.value < s.next
          && s.callers[i].ch.value !in s.closed
          && (forall d :: d in s.locks ==> s.locks[d] != s.callers[i].ch.value))
    && (forall i, j ::
          (&& 0 <= i < |s.callers| && 0 <= j < |s.callers|
           && s.callers[i].Releasing? && s.callers[j].Releasing? && s.callers[i].ch == s.callers[j].ch) ==> i == j)
  }

  ghost predicate WillBeClosed(s: State, d: Digest, ch: Chan) {
    exists j :: 0 <= j < |s.callers| && OutForClosing(s.callers[j], d, ch)
  }

  // No waiter is forgotten: its channel was closed, is about to be, or still guards its digest.
  ghost predicate WaitersCovered(s: State) {
    forall i :: 0 <= i < |s.callers| && s.callers[i].Waiting? ==>
      var p := s.callers[i];
      || p.on in s.closed
      || (p.d in s.locks && s.locks[p.d] == p.on)
      || WillBeClosed(s, p.d, p.on)
  }

  ghost predicate Inv(s: State) {
    LogAgrees(s) && ChannelsApart(s) && WaitersCovered(s) && !s.panicked
  }

  lemma LoggedOwnerAfter(log: seq<Event>, e: Event, d: Digest)
    ensures LoggedOwner(log + [e], d) == if e.d != d then LoggedOwner(log, d) else if e.Took? then Some(e.who) else None
    ensures Alternates(log + [e]) <==> Alternates(log) && LoggedOwner(log, e.d) == if e.Took? then None else Some(e.who)
  {
    assert (log + [e])[..|log|] == log;
  }

  lemma StartInv(n: nat)
    ensures Inv(Start(n))
  {
    assert forall i :: 0 <= i < n ==> Start(n).callers[i] == Idle;
  }

  lemma StepKeepsChannels(s: State, t: Step)
    requires Inv(s) && Enabled(s, t)
    ensures ChannelsApart(Next(s, t)) && !Next(s, t).panicked
  {
    if t.kind.OpenFails? || t.kind.CloseReader? {
      var p := s.callers[t.who];
      TakeOutKeepsChannels(s, t.who, p.d, if p.Reading? then Some(p.drained) else None);
    } else if t.kind.FinishRelease? {
      ClosingKeepsChannels(s, t.who);
    } else {
      OtherStepKeepsChannels(s, t);
    }
  }

  lemma TakeOutKeepsChannels(s: State, i: nat, d: Digest, reader: Option<bool>)
    requires LogAgrees(s) && ChannelsApart(s) && i < |s.callers| && Owns(s.callers[i], d)
    ensures ChannelsApart(TakeOut(s, i, d, reader)) && TakeOut(s, i, d, reader).panicked == s.panicked
  {
    assert d in s.locks;
  }

  lemma ClosingKeepsChannels(s: State, i: nat)
    requires Inv(s) && Enabled(s, Step(i, FinishRelease))
    ensures ChannelsApart(Next(s, Step(i, FinishRelease))) && !Next(s, Step(i, FinishRelease)).panicked
  {
    var s' := Next(s, Step(i, FinishRelease));
    assert forall j :: 0 <= j < |s.callers| && j != i ==> s'.callers[j] == s.callers[j];
  }

  lemma OtherStepKeepsChannels(s: State, t: Step)
    requires ChannelsApart(s) && Enabled(s, t) && !t.kind.OpenFails? && !t.kind.CloseReader? && !t.kind.FinishRelease?
    ensures ChannelsApart(Next(s, t)) && Next(s, t).panicked == s.panicked
  {
    if !t.kind.CloseAgain? {
      CallerKeepsChannels(s, Next(s, t), t.who);
    }
  }

  // One caller moves on, and perhaps enters a fresh channel into the table.
  lemma CallerKeepsChannels(s: State, s': State, i: nat)
    requires ChannelsApart(s) && i < |s.callers| && s'.closed == s.closed && s.next <= s'.next
    requires |s'.callers| == |s.callers| && s'.callers == s.callers[i := s'.callers[i]] && !s'.callers[i].Releasing?
    requires s'.locks == s.locks || (s'.next == s.next + 1 && exists d :: d !in s.locks && s'.locks == s.locks[d := s.next])
    ensures ChannelsApart(s')
  {
    assert forall j :: 0 <= j < |s.callers| && s'.callers[j].Releasing? ==> s'.callers[j] == s.callers[j];
  }

  // A step that logs nothing changes no owner.
  lemma SilentStepKeepsLog(s: State, t: Step)
    requires LogAgrees(s) && Enabled(s, t) && Next(s, t).log == s.log
    ensures LogAgrees(Next(s, t))
  {
    var s' := Next(s, t);
    assert s'.locks == s.locks;
    assert forall d :: Owns(s'.callers[t.who], d) <==> Owns(s.callers[t.who], d);
  }

  // A logged step moves the ownership of one digest between nobody and the caller that steps.
  lemma LoggedStepKeepsLog(s: State, t: Step, e: Event)
    requires LogAgrees(s) && Enabled(s, t) && Next(s, t).log == s.log + [e]
    ensures LogAgrees(Next(s, t))
  {
    assert Next(s, t).log[|s.log|] == e;
    LoggedStepMoves(s, t, e);
    MovedOwnership(s, Next(s, t), e);
  }

  // The ownership of e.d, and nothing else, moved to or from e.who.
  ghost predicate OwnershipMoves(s: State, s': State, e: Event) {
    && s'.log == s.log + [e] && e.who < |s.callers| == |s'.callers|
    && LoggedOwner(s.log, e.d) == (if e.Took? then None else Some(e.who))
    && s'.callers == s.callers[e.who := s'.callers[e.who]]
    && (forall d :: Owns(s'.callers[e.who], d) <==> if e.d == d then e.Took? else Owns(s.callers[e.who], d))
    && (forall d :: d in s'.locks <==> if e.d == d then e.Took? else d in s.locks)
  }

  lemma LoggedStepMoves(s: State, t: Step, e: Event)
    requires LogAgrees(s) && Enabled(s, t) && Next(s, t).log == s.log + [e] && Next(s, t).log[|s.log|] == e
    ensures OwnershipMoves(s, Next(s, t), e)
  {
    var p := s.callers[t.who];
    assert e.who == t.who && e.d == p.d;
    assert e.Gave? ==> Owns(p, e.d);
    assert e.Gave? ==> LoggedOwner(s.log, e.d) == Some(e.who);
    assert e.Took? ==> LoggedOwner(s.log, e.d) == None;
  }

  lemma MovedOwnership(s: State, s': State, e: Event)
    requires LogAgrees(s) && OwnershipMoves(s, s', e)
    ensures LogAgrees(s')
  {
    LoggedOwnerAfter(s.log, e, e.d);
    forall d
      ensures d in s'.locks <==> LoggedOwner(s'.log, d).Some?
      ensures forall i: nat :: LoggedOwner(s'.log, d) == Some(i) <==> i < |s'.callers| && Owns(s'.callers[i], d)
    {
      LoggedOwnerAfter(s.log, e, d);
      OwnersAfter(s, s', e.who, e, d);
    }
  }

  lemma OwnersAfter(s: State, s': State, who: nat, e: Event, d: Digest)
    requires LogAgrees(s) && who < |s.callers| && e.who == who
    requires |s'.callers| == |s.callers| && s'.callers == s.callers[who := s'.callers[who]]
    requires Owns(s'.callers[who], d) <==> if e.d == d then e.Took? else Owns(s.callers[who], d)
    requires LoggedOwner(s.log, e.d) == if e.Took? then None else Some(who)
    requires LoggedOwner(s'.log, d) == if e.d != d then LoggedOwner(s.log, d) else if e.Took? then Some(e.who) else None
    ensures forall i: nat :: LoggedOwner(s'.log, d) == Some(i) <==> i < |s'.callers| && Owns(s'.callers[i], d)
  {
    forall i: nat
      ensures LoggedOwner(s'.log, d) == Some(i) <==> i < |s'.callers| && Owns(s'.callers[i], d)
    {
      assert LoggedOwner(s.log, d) == Some(i) <==> i < |s.callers| && Owns(s.callers[i], d);
    }
  }

  lemma StepKeepsLog(s: State, t: Step)
    requires Inv(s) && Enabled(s, t)
    ensures LogAgrees(Next(s, t))
  {
    if Next(s, t).log == s.log {
      SilentStepKeepsLog(s, t);
    } else {
      LoggedStepKeepsLog(s, t, Next(s, t).log[|s.log|]);
    }
  }

  lemma StepKeepsWaiters(s: State, t: Step)
    requires Inv(s) && Enabled(s, t)
    ensures WaitersCovered(Next(s, t))
  {
    var i, p := t.who, s.callers[t.who];
    var s' := Next(s, t);
    assert forall j :: 0 <= j < |s.callers| && j != i ==> s'.callers[j] == s.callers[j];
    forall k | 0 <= k < |s'.callers| && s'.callers[k].Waiting?
      ensures var w := s'.callers[k];
              || w.on in s'.closed || (w.d in s'.locks && s'.locks[w.d] == w.on) || WillBeClosed(s', w.d, w.on)
    {
      if k != i {
        var w := s.callers[k];
        if WillBeClosed(s, w.d, w.on) {
          var j :| 0 <= j < |s.callers| && OutForClosing(s.callers[j], w.d, w.on);
          assert j != i ==> OutForClosing(s'.callers[j], w.d, w.on);
        } else if w.on !in s.closed && w.d !in s'.locks {
          assert OutForClosing(s'.callers[i], w.d, w.on);
        }
      }
    }
  }

  lemma StepInv(s: State, t: Step)
    requires Inv(s) && Enabled(s, t)
    ensures Inv(Next(s, t))
  {
    StepKeepsChannels(s, t);
    StepKeepsLog(s, t);
    StepKeepsWaiters(s, t);
  }

  lemma {:induction false} ReachableInv(run: seq<State>)
    requires IsRun(run)
    ensures forall k :: 0 <= k < |run| ==> Inv(run[k])
  {
    var n: nat :| run[0] == Start(n);
    StartInv(n);
    var k := 0;
    while k < |run| - 1
      invariant 0 <= k < |run|
      invariant forall j :: 0 <= j <= k ==> Inv(run[j])
    {
      assert StepsTo(run[k], run[k + 1]);
      var t :| Enabled(run[k], t) && run[k + 1] == Next(run[k], t);
      StepInv(run[k], t);
      k := k + 1;
    }
  }

  /******* What that means for callers *******/

  // At most one caller owns a digest's spool from its acquisition until its reader closes; the
  // table has an entry exactly while one does; takes and gives of a digest alternate over the whole
  // history, each give by the taker; and no release panics.
  lemma MutualExclusion(run: seq<State>, k: nat, d: Digest)
    requires IsRun(run) && k < |run|
    ensures var s := run[k];
            && !s.panicked && Alternates(s.log)
            && (forall i, j ::
                  (&& 0 <= i < |s.callers| && 0 <= j < |s.callers|
                   && Owns(s.callers[i], d) && Owns(s.callers[j], d)) ==> i == j)
            && (d in s.locks <==> exists i :: 0 <= i < |s.callers| && Owns(s.callers[i], d))
  {
    ReachableInv(run);
    var s := run[k];
    assert Inv(s);
    if d in s.locks {
      var i := LoggedOwner(s.log, d).value;
      assert LoggedOwner(s.log, d) == Some(i);
    }
  }

  // No lost wakeup: once nobody owns or is releasing its digest, every waiter can run, and what it
  // does next is take the lock.
  lemma WaitersCanRun(run: seq<State>, k: nat, i: nat)
    requires IsRun(run) && k < |run| && i < |run[k].callers| && run[k].callers[i].Waiting?
    requires forall j :: 0 <= j < |run[k].callers| ==>
               !Owns(run[k].callers[j], run[k].callers[i].d)
               && !(run[k].callers[j].Releasing? && run[k].callers[j].d == run[k].callers[i].d)
    ensures Enabled(run[k], Step(i, Wake))
    ensures var s' := Next(run[k], Step(i, Wake));
            Enabled(s', Step(i, TryLock)) && Owns(Next(s', Step(i, TryLock)).callers[i], run[k].callers[i].d)
  {
    ReachableInv(run);
    var s := run[k];
    assert Inv(s);
    MutualExclusion(run, k, s.callers[i].d);
  }

  // Whoever owns a spool can let go of it, by failing or by closing its reader, in two steps: then the
  // digest is free and its waiters are woken.
  lemma OwnerCanRelease(run: seq<State>, k: nat, i: nat)
    requires IsRun(run) && k < |run| && i < |run[k].callers| && (run[k].callers[i].Opening? || run[k].callers[i].Reading?)
    ensures var s, d := run[k], run[k].callers[i].d;
            var release := Step(i, if s.callers[i].Opening? then OpenFails else CloseReader);
            && Enabled(s, release) && d in s.locks
            && var s' := Next(s, release);
               && d !in s'.locks && Enabled(s', Step(i, FinishRelease))
               && var s'' := Next(s', Step(i, FinishRelease));
                  && d !in s''.locks && s.locks[d] in s''.closed && !s''.panicked
                  && (s.callers[i].Opening? ==> s''.callers[i] == Idle)
                  && (s.callers[i].Reading? ==> s''.callers[i] == Closed(d, s.callers[i].drained))
  {
    ReachableInv(run);
    var s := run[k];
    assert Inv(s);
    MutualExclusion(run, k, s.callers[i].d);
    assert Owns(s.callers[i], s.callers[i].d);
    assert s.locks[s.callers[i].d] !in s.closed;
  }

  /******* Who touches a spool's files *******/

  // The step uses the files of d: everything an owner does, and closing a drained reader - each time.
  predicate Touches(s: State, t: Step, d: Digest)
    requires Enabled(s, t)
  {
    var p := s.callers[t.who];
    match t.kind
    case OpenFails => p.d == d
    case OpenSucceeds => p.d == d
    case Drain => p.d == d
    case CloseReader => p.d == d
    case CloseAgain => p.d == d && p.drained
    case _ => false
  }

  ghost predicate OwnedByAnother(s: State, who: nat, d: Digest) {
    exists i :: 0 <= i < |s.callers| && i != who && Owns(s.callers[i], d)
  }

  // Whoever closes its reader once touches only what it owns and nobody else does. Files in use by
  // another caller are touched exactly by a second Close of a reader that was drained.
  lemma DisturbedIff(run: seq<State>, k: nat, t: Step, d: Digest)
    requires IsRun(run) && k < |run| && Enabled(run[k], t)
    ensures var s := run[k];
            && (Touches(s, t, d) && !t.kind.CloseAgain? ==> LoggedOwner(s.log, d) == Some(t.who) && !OwnedByAnother(s, t.who, d))
            && (Touches(s, t, d) && OwnedByAnother(s, t.who, d)
                <==> t.kind.CloseAgain? && s.callers[t.who] == Closed(d, true) && d in s.locks)
  {
    ReachableInv(run);
    var s := run[k];
    assert Inv(s);
    MutualExclusion(run, k, d);
    if Touches(s, t, d) && !t.kind.CloseAgain? {
      assert Owns(s.callers[t.who], d);
    }
    if t.kind.CloseAgain? && d in s.locks {
      assert !Owns(s.callers[t.who], d);
    }
  }

  // The states of a run, one step after another.
  function Play(run: seq<State>, t: Step): seq<State>
    requires run != [] && Enabled(run[|run| - 1], t)
  {
    run + [Next(run[|run| - 1], t)]
  }

  lemma PlayIsRun(run: seq<State>, t: Step)
    requires IsRun(run) && Enabled(run[|run| - 1], t)
    ensures IsRun(Play(run, t))
  {
    var next := Play(run, t);
    forall k | 0 <= k < |next| - 1 ensures StepsTo(next[k], next[k + 1]) {
      assert k < |run| - 1 ==> StepsTo(run[k], run[k + 1]);
    }
  }

  // The first caller of a spool finishes it and closes its reader; the second takes the lock.
  lemma OneAfterAnother(d: Digest) returns (run: seq<State>)
    ensures IsRun(run) && run[|run| - 1].callers == [Closed(d, true), Opening(d)] && d in run[|run| - 1].locks
  {
    run := [Start(2)];
    run := Played(run, Step(0, Ask(d)));
    run := Played(run, Step(0, TryLock));
    run := Played(run, Step(0, OpenSucceeds));
    run := Played(run, Step(0, Drain));
    run := Played(run, Step(0, CloseReader));
    run := Played(run, Step(0, FinishRelease));
    run := Played(run, Step(1, Ask(d)));
    run := Played(run, Step(1, TryLock));
  }

  lemma Played(run: seq<State>, t: Step) returns (next: seq<State>)
    requires IsRun(run) && Enabled(run[|run| - 1], t)
    ensures IsRun(next) && next[|next| - 1] == Next(run[|run| - 1], t)
  {
    PlayIsRun(run, t);
    next := Play(run, t);
  }

  // Then the first one's second Close takes the files from under the second.
  lemma ClosedTwice(d: Digest) returns (run: seq<State>)
    ensures IsRun(run)
    ensures var s, t := run[|run| - 1], Step(0, CloseAgain); Enabled(s, t) && Touches(s, t, d) && OwnedByAnother(s, 0, d)
  {
    run := OneAfterAnother(d);
    DisturbedIff(run, |run| - 1, Step(0, CloseAgain), d);
  }
}
