/**
 How far a download gets, computed from lengths alone: the offset, the validator and how far failed
 writes reached into the file, for a given origin and given faults. No content is looked at.
 */
module Forecast {
  import opened Wrappers
  import opened Origins

  const Attempts := 3

  // How many bytes may be received between two checkpoints (8 MiB).
  const CheckpointEvery := 0x80_0000

  // `reach` is the farthest end of a failed write since the file was last emptied; `writes` and `ops`
  // count the operations so far.
  datatype Progress = Progress(offset: nat, validator: string, reach: nat, writes: nat, ops: nat)

  datatype Step = Step(ok: bool, p: Progress)

  datatype AppendResult = Appended | SpoolError | Interrupted | Stopped

  datatype PullResult = Pulled | Retry | Fatal

  /******* The spool's operations *******/

  // A sync, then the sidecar.
  function Checkpointed(f: Faults, p: Progress): Step {
    if f.other(p.ops) then Step(false, p.(ops := p.ops + 1))
    else Step(!f.other(p.ops + 1), p.(ops := p.ops + 2))
  }

  function Restarted(f: Faults, p: Progress): Step {
    if f.other(p.ops) then Step(false, p.(ops := p.ops + 1))
    else Checkpointed(f, Progress(0, "", 0, p.writes, p.ops + 1))
  }

  function Written(f: Faults, p: Progress, n: nat): Step {
    match f.write(p.writes)
    case None => Step(true, p.(offset := p.offset + n, writes := p.writes + 1))
    case Some(left) => Step(false, p.(reach := Max(p.reach, p.offset + Min(left, n)), writes := p.writes + 1))
  }

  function SinceAfter(n: nat, since: nat): nat {
    if since + n >= CheckpointEvery then 0 else since + n
  }

  // One read of n bytes.
  function Received(f: Faults, p: Progress, n: nat, since: nat): Step {
    if n == 0 then Step(true, p) else
    var w := Written(f, p, n);
    if !w.ok || since + n < CheckpointEvery then w else Checkpointed(f, w.p)
  }

  function Streamed(f: Faults, p: Progress, chunks: seq<Bytes>, since: nat): Step
    decreases |chunks|
  {
    if chunks == [] then Step(true, p) else
    var r := Received(f, p, |chunks[0]|, since);
    if !r.ok then r else Streamed(f, r.p, chunks[1..], SinceAfter(|chunks[0]|, since))
  }

  lemma StreamedStep(f: Faults, p: Progress, chunks: seq<Bytes>, i: nat, since: nat)
    requires i < |chunks|
    ensures var r := Received(f, p, |chunks[i]|, since);
            Streamed(f, p, chunks[i..], since)
            == if !r.ok then r else Streamed(f, r.p, chunks[i + 1..], SinceAfter(|chunks[i]|, since))
  {
    assert chunks[i..][0] == chunks[i] && chunks[i..][1..] == chunks[i + 1..];
  }

  function AfterBody(f: Faults, p: Progress, body: Body): (AppendResult, Progress) {
    var s := Streamed(f, p, body.chunks, 0);
    if !s.ok then (SpoolError, s.p) else
    var c := Checkpointed(f, s.p);
    match body.ending
    case Cancelled => (Stopped, c.p)
    case Eof => (if c.ok then Appended else SpoolError, c.p)
    case Cut => (if c.ok then Interrupted else SpoolError, c.p)
  }

  /******* One attempt *******/

  function Taken(f: Faults, p: Progress, body: Body, size: int): (PullResult, Progress) {
    var (r, q) := AfterBody(f, p, body);
    match r
    case Stopped => (Fatal, q)
    case Appended => (if size > 0 && q.offset != size then Retry else Pulled, q)
    case _ => (Retry, q)
  }

  // Whether a partial answer continues the spool: same place, same size.
  predicate Continues(p: Progress, cr: Option<ContentRange>, size: int) {
    && cr.Some? && cr.value.start == p.offset
    && (cr.value.total.Some? && size > 0 ==> cr.value.total.value == size)
  }

  predicate ValidatorMoved(p: Progress, now: string) {
    p.validator != "" && now != "" && p.validator != now
  }

  function Answered(f: Faults, p: Progress, reply: Reply, size: int): (PullResult, Progress) {
    match reply
    case Unreachable(cancelled) => (if cancelled then Fatal else Retry, p)
    case OtherStatus => (Retry, p)
    case Full(validator, body) =>
      var r := Restarted(f, p);
      if !r.ok then (Retry, r.p) else Taken(f, r.p.(validator := validator), body, size)
    case Partial(cr, now, body) =>
      if !Continues(p, cr, size) then (Retry, p)
      else if ValidatorMoved(p, now) then (Retry, Restarted(f, p).p)
      else Taken(f, if p.offset == 0 then p.(validator := now) else p, body, size)
  }

  function RangeFrom(off: nat): Option<nat> {
    if off > 0 then Some(off) else None
  }

  function Asked(origin: Origin, attempt: nat, p: Progress): Reply {
    origin(attempt, RangeFrom(p.offset), if p.offset > 0 then p.validator else "")
  }

  /******* One Open *******/

  type Try = (nat, Progress) -> (PullResult, Progress)

  // The attempts from the given one on, until the spool is complete or one is final.
  function Repeated(try: Try, p: Progress, attempt: nat, size: int): Step
    decreases Attempts - attempt
  {
    if attempt >= Attempts then Step(false, p)
    else if size > 0 && p.offset == size then Step(true, p)
    else
      var (r, next) := try(attempt, p);
      if r.Retry? then Repeated(try, next, attempt + 1, size) else Step(r.Pulled?, next)
  }

  function Attempted(f: Faults, p: Progress, origin: Origin, size: int): Step {
    Repeated(Trying(f, origin, size), p, 0, size)
  }

  function Trying(f: Faults, origin: Origin, size: int): Try {
    (attempt: nat, q: Progress) => Tried(f, q, origin, attempt, size)
  }

  // One attempt. Before each but the first there is a wait, which the caller may cut short.
  function Tried(f: Faults, p: Progress, origin: Origin, attempt: nat, size: int): (PullResult, Progress) {
    if attempt == 0 then Answered(f, p, Asked(origin, attempt, p), size)
    else if f.other(p.ops) then (Fatal, p.(ops := p.ops + 1))
    else
      var q := p.(ops := p.ops + 1);
      Answered(f, q, Asked(origin, attempt, q), size)
  }

  // Reopening: a sidecar that cannot be read counts as none, the file is opened, and cut to the
  // offset when it is longer.
  function Attached(f: Faults, recorded: nat, validator: string, length: nat): Step {
    var p := if f.other(0) then Progress(0, "", 0, 0, 2) else Progress(Min(recorded, length), validator, 0, 0, 2);
    if f.other(1) then Step(false, p)
    else if length > p.offset then Step(!f.other(2), p.(ops := 3))
    else Step(true, p)
  }

  // Then a client, a spool no longer than the blob, and its digest read back.
  function Prepared(f: Faults, recorded: nat, validator: string, length: nat, size: int): Step {
    var a := Attached(f, recorded, validator, length);
    if !a.ok then a else
    if f.other(a.p.ops) then Step(false, a.p.(ops := a.p.ops + 1)) else
    var p := a.p.(ops := a.p.ops + 1);
    var r := if p.offset > size then Restarted(f, p) else Step(true, p);
    if !r.ok || r.p.offset == 0 then r else Step(!f.other(r.p.ops), r.p.(ops := r.p.ops + 1))
  }

  // Where an Open ends when it gets as far as the final check.
  function Concluded(f: Faults, recorded: nat, validator: string, length: nat, origin: Origin, size: int): Option<Progress> {
    var a := Prepared(f, recorded, validator, length, size);
    if !a.ok then None else
    var b := Attempted(f, a.p, origin, size);
    if b.ok then Some(b.p) else None
  }

  /******* When nothing is left behind the offset *******/

  function Bound(size: int): nat { if size > 0 then size else 0 }

  lemma {:induction false} StreamedReach(f: Faults, p: Progress, chunks: seq<Bytes>, since: nat)
    ensures var q := Streamed(f, p, chunks, since).p;
            && p.reach <= q.reach <= Max(p.reach, p.offset + |Content(chunks)|)
            && (WritesSucceed(f) ==> q.reach == p.reach)
    decreases |chunks|
  {
    if chunks != [] {
      ContentFirst(chunks, |chunks|);
      assert chunks[..|chunks|] == chunks && chunks[1..][..|chunks| - 1] == chunks[1..];
      var r := Received(f, p, |chunks[0]|, since);
      assert WritesSucceed(f) ==> f.write(p.writes).None?;
      if r.ok {
        StreamedReach(f, r.p, chunks[1..], SinceAfter(|chunks[0]|, since));
      }
    }
  }

  lemma TakenReach(f: Faults, p: Progress, body: Body, size: int)
    ensures var q := Taken(f, p, body, size).1;
            && q.reach <= Max(p.reach, p.offset + |Content(body.chunks)|)
            && (WritesSucceed(f) ==> q.reach == p.reach)
  {
    StreamedReach(f, p, body.chunks, 0);
  }

  lemma AnsweredReach(f: Faults, p: Progress, reply: Reply, size: int)
    requires p.reach <= Bound(size) && (WithinReply(reply, RangeFrom(p.offset), size) || WritesSucceed(f))
    ensures Answered(f, p, reply, size).1.reach <= Bound(size)
  {
    match reply
    case Full(validator, body) =>
      TakenReach(f, Restarted(f, p).p.(validator := validator), body, size);
    case Partial(cr, now, body) =>
      TakenReach(f, if p.offset == 0 then p.(validator := now) else p, body, size);
    case _ =>
  }

  lemma AnsweredSize(f: Faults, p: Progress, reply: Reply, size: int)
    ensures var (r, q) := Answered(f, p, reply, size); r.Pulled? && size > 0 ==> q.offset == size
  {
  }

  lemma TriedReach(f: Faults, p: Progress, origin: Origin, attempt: nat, size: int)
    ensures var (r, q) := Tried(f, p, origin, attempt, size);
            && (r.Pulled? && size > 0 ==> q.offset == size)
            && (p.reach <= Bound(size) && (Within(origin, size) || WritesSucceed(f)) ==> q.reach <= Bound(size))
  {
    var q := if attempt == 0 then p else p.(ops := p.ops + 1);
    var reply := Asked(origin, attempt, q);
    assert Within(origin, size) ==> WithinReply(reply, RangeFrom(q.offset), size);
    AnsweredSize(f, q, reply, size);
    if p.reach <= Bound(size) && (Within(origin, size) || WritesSucceed(f)) {
      AnsweredReach(f, q, reply, size);
    }
  }

  lemma {:induction false} RepeatedReach(try: Try, p: Progress, attempt: nat, size: int, bounded: bool)
    requires bounded ==> p.reach <= Bound(size)
    requires forall a: nat, q :: var (r, next) := try(a, q);
               && (r.Pulled? && size > 0 ==> next.offset == size)
               && (bounded && q.reach <= Bound(size) ==> next.reach <= Bound(size))
    ensures var s := Repeated(try, p, attempt, size);
            && (s.ok && size > 0 ==> s.p.offset == size)
            && (bounded ==> s.p.reach <= Bound(size))
    decreases Attempts - attempt
  {
    if attempt < Attempts && !(size > 0 && p.offset == size) {
      var (r, next) := try(attempt, p);
      if r.Retry? {
        RepeatedReach(try, next, attempt + 1, size, bounded);
      }
    }
  }

  lemma TryingReach(f: Faults, origin: Origin, size: int, bounded: bool)
    requires bounded ==> Within(origin, size) || WritesSucceed(f)
    ensures forall n: nat, q :: var (r, next) := Trying(f, origin, size)(n, q);
              && (r.Pulled? && size > 0 ==> next.offset == size)
              && (bounded && q.reach <= Bound(size) ==> next.reach <= Bound(size))
  {
    forall n: nat, q ensures var (r, next) := Trying(f, origin, size)(n, q);
                             && (r.Pulled? && size > 0 ==> next.offset == size)
                             && (bounded && q.reach <= Bound(size) ==> next.reach <= Bound(size))
    {
      TriedReach(f, q, origin, n, size);
    }
  }

  lemma AttemptedSize(f: Faults, p: Progress, origin: Origin, size: int)
    ensures var s := Attempted(f, p, origin, size); s.ok && size > 0 ==> s.p.offset == size
  {
    TryingReach(f, origin, size, false);
    RepeatedReach(Trying(f, origin, size), p, 0, size, false);
  }

  // Origins that stay within the declared size, and disks whose writes succeed, leave nothing behind.
  lemma NothingLeftBehind(f: Faults, recorded: nat, validator: string, length: nat, origin: Origin, size: int)
    ensures var c := Concluded(f, recorded, validator, length, origin, size);
            c.Some? && (Within(origin, size) || WritesSucceed(f)) ==> c.value.reach <= c.value.offset
  {
    var a := Prepared(f, recorded, validator, length, size);
    assert a.p.reach == 0;
    var bounded := Within(origin, size) || WritesSucceed(f);
    TryingReach(f, origin, size, bounded);
    RepeatedReach(Trying(f, origin, size), a.p, 0, size, bounded);
  }

  /******* When a download succeeds *******/

  lemma {:induction false} StreamedOffset(f: Faults, p: Progress, chunks: seq<Bytes>, since: nat)
    ensures var t := Streamed(f, p, chunks, since);
            && t.p.offset <= p.offset + |Content(chunks)| && t.p.validator == p.validator
            && (Calm(f) && WritesSucceed(f) ==> t.ok && t.p.offset == p.offset + |Content(chunks)|)
    decreases |chunks|
  {
    if chunks != [] {
      ContentFirst(chunks, |chunks|);
      assert chunks[..|chunks|] == chunks && chunks[1..][..|chunks| - 1] == chunks[1..];
      var r := Received(f, p, |chunks[0]|, since);
      assert WritesSucceed(f) ==> f.write(p.writes).None?;
      if r.ok {
        StreamedOffset(f, r.p, chunks[1..], SinceAfter(|chunks[0]|, since));
      }
    }
  }

  lemma TakenOffset(f: Faults, p: Progress, body: Body, size: int)
    ensures var (r, q) := Taken(f, p, body, size);
            && q.offset <= p.offset + |Content(body.chunks)|
            && (r.Fatal? ==> body.ending.Cancelled?)
            && (Calm(f) && WritesSucceed(f) && body.ending.Eof? && p.offset + |Content(body.chunks)| == size ==> r.Pulled?)
  {
    StreamedOffset(f, p, body.chunks, 0);
  }

  // An answer that serves the rest is taken.
  lemma AnsweredServed(f: Faults, p: Progress, reply: Reply, blob: Bytes)
    requires Calm(f) && WritesSucceed(f) && ServesRest(reply, p.offset, p.validator, blob)
    ensures Answered(f, p, reply, |blob|).0.Pulled?
  {
    match reply
    case Full(validator, body) =>
      TakenOffset(f, Restarted(f, p).p.(validator := validator), body, |blob|);
    case Partial(cr, now, body) =>
      TakenOffset(f, if p.offset == 0 then p.(validator := now) else p, body, |blob|);
    case _ =>
  }

  // No other answer ends the download, nor takes it past the size.
  lemma AnsweredGoesOn(f: Faults, p: Progress, reply: Reply, size: int)
    requires p.offset <= size && WithinReply(reply, RangeFrom(p.offset), size)
    ensures var (r, q) := Answered(f, p, reply, size); q.offset <= size && (r.Fatal? ==> GivenUp(reply))
  {
    match reply
    case Full(validator, body) =>
      TakenOffset(f, Restarted(f, p).p.(validator := validator), body, size);
    case Partial(cr, now, body) =>
      TakenOffset(f, if p.offset == 0 then p.(validator := now) else p, body, size);
    case _ =>
  }

  lemma {:induction false} RepeatedServed(f: Faults, origin: Origin, blob: Bytes, p: Progress, attempt: nat, k: nat)
    requires Calm(f) && WritesSucceed(f) && Within(origin, |blob|) && p.offset <= |blob| && attempt <= k < 3
    requires Serves(origin, k, blob) && NotGivenUp(origin, k)
    ensures Repeated(Trying(f, origin, |blob|), p, attempt, |blob|).ok
    decreases k - attempt
  {
    var q := if attempt == 0 then p else p.(ops := p.ops + 1);
    var reply, try := Asked(origin, attempt, q), Trying(f, origin, |blob|);
    assert WithinReply(reply, RangeFrom(q.offset), |blob|);
    var (r, next) := Answered(f, q, reply, |blob|);
    assert try(attempt, p) == (r, next);
    AnsweredGoesOn(f, q, reply, |blob|);
    if attempt == k {
      AnsweredServed(f, q, reply, blob);
    } else if r.Retry? {
      assert !GivenUp(reply);
      RepeatedServed(f, origin, blob, next, attempt + 1, k);
    } else {
      assert !GivenUp(reply);
    }
  }

  // If nothing fails and one of the three attempts is served, the download gets to its end.
  lemma ServedConcludes(f: Faults, recorded: nat, validator: string, length: nat, origin: Origin, blob: Bytes)
    requires Calm(f) && WritesSucceed(f) && Honest(origin, blob) && ServedInTime(origin, blob)
    ensures Concluded(f, recorded, validator, length, origin, |blob|).Some?
  {
    var k: nat :| k < 3 && Serves(origin, k, blob) && NotGivenUp(origin, k);
    HonestIsWithin(origin, blob);
    RepeatedServed(f, origin, blob, Prepared(f, recorded, validator, length, |blob|).p, 0, k);
  }

  // The same if the first answer serves the rest from where the spool ends, whatever else would be answered.
  lemma ResumedConcludes(f: Faults, recorded: nat, validator: string, length: nat, origin: Origin, blob: Bytes)
    requires Calm(f) && WritesSucceed(f) && Min(recorded, length) <= |blob|
    requires var m := Min(recorded, length); ServesRest(origin(0, RangeFrom(m), if m > 0 then validator else ""), m, validator, blob)
    ensures Concluded(f, recorded, validator, length, origin, |blob|).Some?
  {
    var p, try := Prepared(f, recorded, validator, length, |blob|).p, Trying(f, origin, |blob|);
    AnsweredServed(f, p, Asked(origin, 0, p), blob);
    assert try(0, p) == Answered(f, p, Asked(origin, 0, p), |blob|);
    assert Repeated(try, p, 0, |blob|).ok;
  }

  lemma AnsweredShort(f: Faults, p: Progress, reply: Reply, size: int)
    requires p.offset < size && FallsShort(reply, p.offset, size)
    ensures var (r, q) := Answered(f, p, reply, size); q.offset < size && !r.Pulled?
  {
    match reply
    case Full(validator, body) =>
      TakenOffset(f, Restarted(f, p).p.(validator := validator), body, size);
    case Partial(cr, now, body) =>
      TakenOffset(f, if p.offset == 0 then p.(validator := now) else p, body, size);
    case _ =>
  }

  lemma {:induction false} RepeatedShort(f: Faults, origin: Origin, p: Progress, attempt: nat, size: int)
    requires p.offset < size && NeverServed(origin, size)
    ensures !Repeated(Trying(f, origin, size), p, attempt, size).ok
    decreases 3 - attempt
  {
    if attempt < 3 {
      var q := if attempt == 0 then p else p.(ops := p.ops + 1);
      var reply, try := Asked(origin, attempt, q), Trying(f, origin, size);
      var (r, next) := Answered(f, q, reply, size);
      assert try(attempt, p) == if attempt > 0 && f.other(p.ops) then (Fatal, q) else (r, next);
      AnsweredShort(f, q, reply, size);
      if r.Retry? {
        RepeatedShort(f, origin, next, attempt + 1, size);
      }
    }
  }

  // Three answers that fall short do not complete a spool that was not complete, whatever fails.
  lemma ShortFails(f: Faults, recorded: nat, validator: string, length: nat, origin: Origin, size: int)
    requires size > 0 && Min(recorded, length) != size && NeverServed(origin, size)
    ensures Concluded(f, recorded, validator, length, origin, size).None?
  {
    var a := Prepared(f, recorded, validator, length, size);
    if a.ok {
      RepeatedShort(f, origin, a.p, 0, size);
    }
  }
}
