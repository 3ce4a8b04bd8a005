/**
 The resumable download: bounded attempts against an origin, on a spool that outlives them.
 */
module Fetch {
  import opened Wrappers
  import opened Origins
  import opened Forecast
  import opened SpoolDisk
  import opened Spool

  /******* One attempt *******/

  // What an attempt that succeeded put on the spool, durably, and which answers it may have used.
  predicate Took(reply: Reply, was: Bytes, had: string, now: Bytes, side: Sidecar, size: int) {
    match reply
    case Full(validator, body) => now == Content(body.chunks) && side == Sidecar(|now|, validator)
    case Partial(cr, validator, body) =>
      && cr.Some? && cr.value.start == |was|
      && (cr.value.total.Some? && size > 0 ==> cr.value.total.value == size)
      && (had != "" && validator != "" ==> had == validator)
      && now == was + Content(body.chunks)
      && side == Sidecar(|now|, if was == [] then validator else had)
    case _ => false
  }

  // One request and what becomes of its answer. A partial answer to a request without a range is
  // harmless only on a spool whose sidecar claims nothing.
  method Pull(sp: Spool, origin: Origin, attempt: nat, size: int, ghost blob: Bytes) returns (r: PullResult)
    requires sp.Valid() && sp.verifier.Some?
    modifies sp
    ensures sp.Valid() && sp.verifier.Some? && old(sp.trail) <= sp.trail
    ensures (r, sp.Now()) == Answered(sp.faults, old(sp.Now()), Asked(origin, attempt, old(sp.Now())), size)
    ensures r.Pulled? ==>
              Took(Asked(origin, attempt, old(sp.Now())), old(sp.disk.part[..sp.offset]), old(sp.validator),
                   sp.disk.part[..sp.offset], sp.disk.sidecar, size)
              && sp.disk.safe == sp.disk.part
    ensures old(sp.Faithful(blob)) && Honest(origin, blob) && (PlainInFull(origin) || old(sp.Writable())) ==>
              sp.Faithful(blob) && (old(sp.Writable()) && Calm(sp.faults) ==> sp.Writable())
  {
    ghost var honest := sp.Faithful(blob) && Honest(origin, blob) && (PlainInFull(origin) || sp.Writable());
    var off := sp.offset;
    var reply := origin(attempt, RangeFrom(off), if off > 0 then sp.validator else "");
    assert honest ==> HonestReply(reply, RangeFrom(off), blob);
    r := Answer(sp, reply, size, honest, blob);
  }

  // What becomes of one answer.
  method Answer(sp: Spool, reply: Reply, size: int, ghost honest: bool, ghost blob: Bytes) returns (r: PullResult)
    requires sp.Valid() && sp.verifier.Some?
    requires honest ==> sp.Faithful(blob) && HonestReply(reply, RangeFrom(sp.offset), blob) && (reply.Partial? ==> sp.Writable())
    modifies sp
    ensures sp.Valid() && sp.verifier.Some? && old(sp.trail) <= sp.trail
    ensures (r, sp.Now()) == Answered(sp.faults, old(sp.Now()), reply, size)
    ensures r.Pulled? ==>
              Took(reply, old(sp.disk.part[..sp.offset]), old(sp.validator), sp.disk.part[..sp.offset], sp.disk.sidecar, size)
              && sp.disk.safe == sp.disk.part
    ensures honest ==> sp.Faithful(blob) && (old(sp.Writable()) && Calm(sp.faults) ==> sp.Writable())
  {
    match reply {
      case Unreachable(cancelled) =>
        r := if cancelled then Fatal else Retry;
      case OtherStatus =>
        r := Retry;
      case Full(validator, body) =>
        r := StartOver(sp, validator, body, size, honest, blob);
      case Partial(cr, now, body) =>
        r := Continue(sp, cr, now, body, size, honest, blob);
    }
  }

  // A whole body: the spool restarts at zero.
  method StartOver(sp: Spool, validator: string, body: Body, size: int, ghost honest: bool, ghost blob: Bytes)
    returns (r: PullResult)
    requires sp.Valid() && sp.verifier.Some?
    requires honest ==> sp.Faithful(blob) && Content(body.chunks) <= blob
    modifies sp
    ensures sp.Valid() && sp.verifier.Some? && old(sp.trail) <= sp.trail
    ensures (r, sp.Now()) == Answered(sp.faults, old(sp.Now()), Full(validator, body), size)
    ensures honest ==> sp.Faithful(blob) && (Calm(sp.faults) ==> sp.Writable())
    ensures Calm(sp.faults) && WritesSucceed(sp.faults) ==>
              && sp.offset == |Content(body.chunks)| && sp.disk.part[..sp.offset] == Content(body.chunks)
              && (r.Pulled? <==> body.ending.Eof? && (size > 0 ==> sp.offset == size))
              && (r.Fatal? <==> body.ending.Cancelled?)
    ensures r.Pulled? ==> sp.disk.part[..sp.offset] == Content(body.chunks)
                          && sp.disk.sidecar == Sidecar(sp.offset, validator) && sp.disk.safe == sp.disk.part
  {
    var ok := sp.Reset(blob);
    if !ok {
      return Retry;
    }
    sp.validator := validator;
    assert [] + Content(body.chunks) == Content(body.chunks);
    r := Receive(sp, body, size, honest, blob);
  }

  // The answer starts where the spool ends and agrees on the size.
  predicate Fits(cr: Option<ContentRange>, off: nat, size: int) {
    cr.Some? && cr.value.start == off && (cr.value.total.Some? && size > 0 ==> cr.value.total.value == size)
  }

  // Both validators are known and differ.
  predicate Moved(was: string, now: string) {
    was != "" && now != "" && was != now
  }

  // A partial body: accepted only where the spool ends, for the same size and the same version; then it
  // is appended. Another version restarts the spool.
  method Continue(sp: Spool, cr: Option<ContentRange>, now: string, body: Body, size: int,
                  ghost honest: bool, ghost blob: Bytes)
    returns (r: PullResult)
    requires sp.Valid() && sp.verifier.Some?
    requires honest ==> sp.Faithful(blob) && sp.Writable() && HonestReply(Partial(cr, now, body), RangeFrom(sp.offset), blob)
    modifies sp
    ensures sp.Valid() && sp.verifier.Some? && old(sp.trail) <= sp.trail
    ensures (r, sp.Now()) == Answered(sp.faults, old(sp.Now()), Partial(cr, now, body), size)
    ensures r.Pulled? ==> cr.Some? && cr.value.start == old(sp.offset)
                          && (cr.value.total.Some? && size > 0 ==> cr.value.total.value == size)
                          && (old(sp.validator) != "" && now != "" ==> old(sp.validator) == now)
    ensures r.Pulled? ==> sp.disk.part[..sp.offset] == old(sp.disk.part[..sp.offset]) + Content(body.chunks)
                          && sp.disk.sidecar == Sidecar(sp.offset, if old(sp.offset) == 0 then now else old(sp.validator))
                          && sp.disk.safe == sp.disk.part
    ensures !Fits(cr, old(sp.offset), size) ==> r.Retry? && sp.disk == old(sp.disk) && sp.offset == old(sp.offset)
    ensures Fits(cr, old(sp.offset), size) && Moved(old(sp.validator), now) ==>
              r.Retry? && (Calm(sp.faults) ==> sp.offset == 0 && sp.disk.part == [] && sp.disk.sidecar == NoSidecar)
    ensures Fits(cr, old(sp.offset), size) && !Moved(old(sp.validator), now) && Calm(sp.faults) && WritesSucceed(sp.faults) ==>
              && sp.offset == old(sp.offset) + |Content(body.chunks)|
              && sp.disk.part[..sp.offset] == old(sp.disk.part[..sp.offset]) + Content(body.chunks)
              && (r.Pulled? <==> body.ending.Eof? && (size > 0 ==> sp.offset == size))
              && (r.Fatal? <==> body.ending.Cancelled?)
    ensures honest ==> sp.Faithful(blob) && (Calm(sp.faults) ==> sp.Writable())
  {
    if cr.None? || cr.value.start != sp.offset {
      return Retry;
    }
    if cr.value.total.Some? && size > 0 && cr.value.total.value != size {
      return Retry;
    }
    if sp.validator != "" && now != "" && sp.validator != now {
      var _ := sp.Reset(blob);
      return Retry;
    }
    if sp.offset == 0 {
      sp.validator := now;
    }
    if honest {
      ResumePrefix(sp.disk.part[..sp.offset], Content(body.chunks), blob);
    }
    r := Receive(sp, body, size, honest, blob);
  }

  // Chunks that amount to the whole body are the whole body.
  lemma PrefixLength(start: Bytes, chunks: seq<Bytes>, k: nat)
    requires k <= |chunks|
    ensures |Content(chunks[..k])| == |Content(chunks)| ==> start + Content(chunks[..k]) == start + Content(chunks)
  {
    ContentGrows(chunks, k);
  }

  // Stream the body of an accepted answer.
  method Receive(sp: Spool, body: Body, size: int, ghost honest: bool, ghost blob: Bytes) returns (r: PullResult)
    requires sp.Valid() && sp.verifier.Some?
    requires honest ==> sp.Faithful(blob) && sp.Writable()
                        && sp.disk.part[..sp.offset] + Content(body.chunks) <= blob
    modifies sp
    ensures sp.Valid() && sp.verifier.Some? && old(sp.trail) <= sp.trail
    ensures (r, sp.Now()) == Taken(sp.faults, old(sp.Now()), body, size)
    ensures honest ==> sp.Faithful(blob) && sp.Writable()
    ensures Calm(sp.faults) && WritesSucceed(sp.faults) ==>
              && sp.offset == old(sp.offset) + |Content(body.chunks)|
              && sp.disk.part[..sp.offset] == old(sp.disk.part[..sp.offset]) + Content(body.chunks)
              && (r.Pulled? <==> body.ending.Eof? && (size > 0 ==> sp.offset == size))
              && (r.Fatal? <==> body.ending.Cancelled?)
    ensures r.Pulled? ==> sp.disk.part[..sp.offset] == old(sp.disk.part[..sp.offset]) + Content(body.chunks)
    ensures r.Pulled? ==> sp.disk.sidecar == Sidecar(sp.offset, old(sp.validator)) && sp.disk.safe == sp.disk.part
  {
    var got; ghost var k;
    StreamedOffset(sp.faults, sp.Now(), body.chunks, 0);
    got, k := sp.Append(body, blob);
    PrefixLength(old(sp.disk.part[..sp.offset]), body.chunks, k);
    assert k == |body.chunks| ==> body.chunks[..k] == body.chunks;
    match got {
      case Stopped => r := Fatal;
      case SpoolError => r := Retry;
      case Interrupted => r := Retry;
      case Appended => r := if size > 0 && sp.offset != size then Retry else Pulled;
    }
  }

  /******* One Open *******/

  // A reader hands out the whole file, to its end.
  datatype OpenResult = Reader(content: Bytes) | Mismatch | Failed

  // What `Open` leaves: its result, and every disk the process went through.
  datatype Session = Session(result: OpenResult, trail: seq<Disk>)

  function Last(trail: seq<Disk>): Disk
    requires trail != []
  {
    trail[|trail| - 1]
  }

  // An honest origin is trusted on every disk when it answers plain requests in full; otherwise
  // on a spool whose sidecar did not outlive its file, as long as nothing but writes fails.
  ghost predicate Trusted(disk: Disk, origin: Origin, faults: Faults, blob: Bytes) {
    && Sane(disk, blob) && Honest(origin, blob)
    && (PlainInFull(origin) || (!Stale(disk) && Calm(faults)))
  }

  // The sidecar outlived its file.
  predicate Stale(disk: Disk) {
    disk.sidecar.offset > |disk.part|
  }

  // The sidecar claims the whole blob.
  predicate Whole(disk: Disk, size: int) {
    0 < size == disk.sidecar.offset <= |disk.part|
  }

  // One attempt, after the wait that precedes all but the first.
  method TryOnce(sp: Spool, origin: Origin, attempt: nat, size: int, ghost honest: bool, ghost blob: Bytes) returns (r: PullResult)
    requires sp.Valid() && sp.verifier.Some?
    requires honest ==> sp.Faithful(blob) && Honest(origin, blob) && (PlainInFull(origin) || sp.Writable())
    modifies sp
    ensures sp.Valid() && sp.verifier.Some? && old(sp.trail) <= sp.trail
    ensures (r, sp.Now()) == Tried(sp.faults, old(sp.Now()), origin, attempt, size)
    ensures honest ==> sp.Faithful(blob) && (old(sp.Writable()) && Calm(sp.faults) ==> sp.Writable())
  {
    if attempt > 0 {
      var cancelled := sp.Fails();
      if cancelled {
        return Fatal;
      }
    }
    r := Pull(sp, origin, attempt, size, blob);
  }

  // The attempts of one Open, until the spool is complete or they run out.
  method Attempt(sp: Spool, origin: Origin, size: int, ghost honest: bool, ghost blob: Bytes) returns (ok: bool)
    requires sp.Valid() && sp.verifier.Some?
    requires honest ==> sp.Faithful(blob) && Honest(origin, blob) && (PlainInFull(origin) || (sp.Writable() && Calm(sp.faults)))
    modifies sp
    ensures sp.Valid() && sp.verifier.Some? && old(sp.trail) <= sp.trail
    ensures Step(ok, sp.Now()) == Attempted(sp.faults, old(sp.Now()), origin, size)
    ensures size > 0 && old(sp.offset) == size ==> ok && sp.disk == old(sp.disk)
    ensures honest ==> sp.Faithful(blob) && (old(sp.Writable()) && Calm(sp.faults) ==> sp.Writable())
  {
    ghost var try, p := Trying(sp.faults, origin, size), sp.Now();
    var attempt := 0;
    while attempt < Attempts
      invariant 0 <= attempt <= Attempts
      invariant sp.Valid() && sp.verifier.Some? && old(sp.trail) <= sp.trail
      invariant Repeated(try, p, 0, size) == Repeated(try, sp.Now(), attempt, size)
      invariant attempt == 0 || (size > 0 && old(sp.offset) == size) ==> sp.disk == old(sp.disk) && sp.offset == old(sp.offset) && attempt == 0
      invariant honest ==> sp.Faithful(blob) && (PlainInFull(origin) || sp.Writable())
                           && (old(sp.Writable()) && Calm(sp.faults) ==> sp.Writable())
    {
      if size > 0 && sp.offset == size {
        return true;
      }
      ghost var q := sp.Now();
      var r := TryOnce(sp, origin, attempt, size, honest, blob);
      assert try(attempt, q) == (r, sp.Now());
      if r.Pulled? {
        return true;
      }
      if r.Fatal? {
        return false;
      }
      attempt := attempt + 1;
    }
    ok := false;
  }

  // Adopt the spool on disk, or start it over when it is longer than the blob, and restore its digest.
  method Prepare(sp: Spool, size: int, ghost blob: Bytes) returns (ok: bool)
    requires DiskOk(sp.disk) && sp.trail == [sp.disk] && sp.writes == sp.ops == 0
    modifies sp
    ensures Step(ok, sp.Now()) == Prepared(sp.faults, old(sp.disk).sidecar.offset, old(sp.disk).sidecar.validator, |old(sp.disk).part|, size)
    ensures ok ==> sp.Valid() && sp.verifier.Some? && (sp.offset > 0 ==> sp.offset <= size)
    ensures old(sp.trail) <= sp.trail && sp.TrailOk()
    ensures Sane(old(sp.disk), blob) ==> sp.TrailSane(blob) && (ok ==> sp.Faithful(blob))
    ensures Calm(sp.faults) ==> ok && (!Stale(old(sp.disk)) ==> sp.Writable())
    ensures Calm(sp.faults) ==>
              var m := Min(old(sp.disk).sidecar.offset, |old(sp.disk).part|);
              if m <= size then sp.offset == m && sp.disk.part == old(sp.disk).part[..m] && sp.validator == old(sp.disk).sidecar.validator
              else sp.offset == 0 && sp.disk.part == [] && sp.validator == ""
  {
    ok := sp.Attach(blob);
    if !ok {
      return;
    }
    var unusable := sp.Fails();
    if unusable {
      return false;
    }
    if sp.offset > size {
      ok := sp.Reset(blob);
      if !ok {
        return;
      }
    }
    ok := sp.Rehash();
  }

  // The final check: a reader over the file, or the spool is thrown away. What the reader yields
  // beyond the verified bytes is what failed writes left there.
  method HandOver(sp: Spool, ghost blob: Bytes) returns (r: OpenResult, ghost verified: Bytes)
    requires sp.Valid() && sp.verifier.Some?
    modifies sp`disk, sp`trail, sp`ops
    ensures old(sp.trail) <= sp.trail && sp.TrailOk()
    ensures verified == old(sp.disk.part[..sp.offset]) && |verified| == sp.offset
    ensures r == if sp.hash(verified) == sp.dgst then Reader(old(sp.disk.part)) else Mismatch
    ensures r.Reader? ==> sp.disk == old(sp.disk) && sp.trail == old(sp.trail) && verified <= r.content
    ensures r.Reader? ==> |r.content| == Max(sp.offset, sp.reach) && (r.content == verified <==> sp.reach <= sp.offset)
    ensures Calm(sp.faults) && old(sp.Writable()) ==> !Stale(sp.disk)
    ensures old(sp.Faithful(blob)) ==> sp.TrailSane(blob) && verified <= blob
  {
    verified := sp.disk.part[..sp.offset];
    var ok := sp.Verified();
    if ok {
      return Reader(sp.disk.part), verified;
    }
    sp.Discard(blob);
    r := Mismatch;
  }

  lemma WholePrefix(s: Bytes, blob: Bytes, size: int)
    requires s <= blob && (size > 0 ==> |s| == size) && size == |blob|
    ensures s == blob
  {
  }

  // What the inputs of an Open forecast.
  function Ending(disk: Disk, origin: Origin, faults: Faults, size: int): Option<Progress> {
    Concluded(faults, disk.sidecar.offset, disk.sidecar.validator, |disk.part|, origin, size)
  }

  // Everything up to the final check.
  method Download(sp: Spool, origin: Origin, size: int, ghost honest: bool, ghost blob: Bytes) returns (ok: bool)
    requires DiskOk(sp.disk) && sp.trail == [sp.disk] && sp.writes == sp.ops == 0
    requires honest ==> Trusted(sp.disk, origin, sp.faults, blob)
    modifies sp
    ensures old(sp.trail) <= sp.trail && sp.TrailOk()
    ensures (if ok then Some(sp.Now()) else None) == Ending(old(sp.disk), origin, sp.faults, size)
    ensures ok ==> sp.Valid() && sp.verifier.Some? && (size > 0 ==> sp.offset == size)
    ensures ok && (Within(origin, size) || WritesSucceed(sp.faults)) ==> sp.reach <= sp.offset
    ensures honest ==> sp.TrailSane(blob) && (ok ==> sp.Faithful(blob))
    ensures honest && !Stale(old(sp.disk)) && Calm(sp.faults) ==> !Stale(sp.disk) && (ok ==> sp.Writable())
    ensures Calm(sp.faults) && Whole(old(sp.disk), size) ==> ok && sp.disk.part[..sp.offset] == old(sp.disk).part[..size]
  {
    ok := Prepare(sp, size, blob);
    if !ok {
      return;
    }
    ghost var p := sp.Now();
    ok := Attempt(sp, origin, size, honest, blob);
    AttemptedSize(sp.faults, p, origin, size);
    NothingLeftBehind(sp.faults, old(sp.disk).sidecar.offset, old(sp.disk).sidecar.validator, |old(sp.disk).part|, origin, size);
  }

  // The first request, from where the spool on disk ends, is answered with the rest of the blob.
  predicate Resumable(disk: Disk, origin: Origin, blob: Bytes) {
    var m, v := Min(disk.sidecar.offset, |disk.part|), disk.sidecar.validator;
    m <= |blob| && ServesRest(origin(0, if m > 0 then Some(m) else None, if m > 0 then v else ""), m, v, blob)
  }

  // Three kinds of origins that settle where an Open ends.
  lemma EndingSettled(disk: Disk, origin: Origin, faults: Faults, size: int, blob: Bytes)
    ensures Honest(origin, blob) && size == |blob| && Calm(faults) && WritesSucceed(faults) && ServedInTime(origin, blob) ==>
              Ending(disk, origin, faults, size).Some?
    ensures size == |blob| && Calm(faults) && WritesSucceed(faults) && Resumable(disk, origin, blob) ==>
              Ending(disk, origin, faults, size).Some?
    ensures size > 0 && Min(disk.sidecar.offset, |disk.part|) != size && NeverServed(origin, size) ==>
              Ending(disk, origin, faults, size).None?
  {
    if size == |blob| && Calm(faults) && WritesSucceed(faults) && Resumable(disk, origin, blob) {
      ResumedConcludes(faults, disk.sidecar.offset, disk.sidecar.validator, |disk.part|, origin, blob);
    }
    if Honest(origin, blob) && size == |blob| && Calm(faults) && WritesSucceed(faults) && ServedInTime(origin, blob) {
      ServedConcludes(faults, disk.sidecar.offset, disk.sidecar.validator, |disk.part|, origin, blob);
    }
    if size > 0 && Min(disk.sidecar.offset, |disk.part|) != size && NeverServed(origin, size) {
      ShortFails(faults, disk.sidecar.offset, disk.sidecar.validator, |disk.part|, origin, size);
    }
  }

  // Against any origin, faults and crash history: Open gets to the final check exactly when its
  // inputs forecast it, a reader is handed out only over bytes of the declared length that hash to
  // the digest, and it yields exactly as many bytes as the forecast says - so nothing but the
  // verified bytes if and only if no failed write reached past the final offset. Against an
  // honest origin of the blob every disk on the way is crash-safe and the mismatch never happens; if
  // nothing fails and one of three attempts is served in full, or the first one from where the spool
  // ends, the reader yields the blob; if all three fall short, there is none.
  method Open(disk: Disk, dgst: Digest, hash: Bytes -> Digest, origin: Origin, faults: Faults, size: int, ghost blob: Bytes)
    returns (s: Session, ghost verified: Bytes)
    requires DiskOk(disk)
    ensures s.trail != [] && s.trail[0] == disk && Trailed(Last(s.trail), s.trail)
    ensures s.result.Failed? <==> Ending(disk, origin, faults, size).None?
    ensures !s.result.Failed? ==> (s.result.Reader? <==> hash(verified) == dgst) && (size > 0 ==> |verified| == size)
    ensures s.result.Reader? ==> s.result.content == Last(s.trail).part && verified <= s.result.content
    ensures s.result.Reader? ==>
              var end := Ending(disk, origin, faults, size).value;
              && |verified| == end.offset && |s.result.content| == Max(end.offset, end.reach)
              && (s.result.content == verified <==> end.reach <= end.offset)
    ensures s.result.Reader? && (Within(origin, size) || WritesSucceed(faults)) ==> s.result.content == verified
    ensures Trusted(disk, origin, faults, blob) ==> AllSane(s.trail, blob)
    ensures Trusted(disk, origin, faults, blob) && size == |blob| && hash(blob) == dgst
            ==> !s.result.Mismatch? && (s.result.Reader? ==> s.result.content == blob)
    ensures Trusted(disk, origin, faults, blob) && !Stale(disk) && Calm(faults) ==> !Stale(Last(s.trail))
    ensures Calm(faults) && Whole(disk, size) ==> !s.result.Failed? && verified == disk.part[..size]
    ensures Trusted(disk, origin, faults, blob) && size == |blob| && hash(blob) == dgst ==>
              (Calm(faults) && WritesSucceed(faults) && ServedInTime(origin, blob) ==> s.result == Reader(blob))
    ensures Trusted(disk, origin, faults, blob) && size == |blob| && hash(blob) == dgst ==>
              (Calm(faults) && WritesSucceed(faults) && Resumable(disk, origin, blob) ==> s.result == Reader(blob))
    ensures size > 0 && Min(disk.sidecar.offset, |disk.part|) != size && NeverServed(origin, size) ==> s.result.Failed?
  {
    EndingSettled(disk, origin, faults, size, blob);
    verified := [];
    var sp := new Spool(disk, dgst, hash, faults);
    ghost var honest := Trusted(disk, origin, faults, blob);
    var ok := Download(sp, origin, size, honest, blob);
    if !ok {
      return Session(Failed, sp.trail), verified;
    }
    var r;
    r, verified := HandOver(sp, blob);
    if honest && size == |blob| {
      WholePrefix(verified, blob, size);
      HonestIsWithin(origin, blob);
    }
    s := Session(r, sp.trail);
  }

  /******* A reader that yields more than was verified *******/

  const Wanted: Bytes := [7]

  // The declared blob and one byte more, in two reads.
  function OverlongOrigin(attempt: nat, range: Option<nat>, validator: string): Reply {
    Full("", Body([Wanted, [9]], Eof))
  }

  // The second write fails, but not before its byte reached the file.
  function SecondWriteFails(n: nat): Option<nat> {
    if n == 1 then Some(1) else None
  }

  // The attempt that failed is retried, the spool is found complete and verifies, and the reader
  // goes on past the verified byte.
  method StrayByte() returns (s: Session)
    ensures s.result.Reader? && |s.result.content| == |Wanted| + 1
  {
    var faults := Faults(SecondWriteFails, _ => false);
    StrayForecast(faults);
    ghost var verified;
    s, verified := Open(EmptyDisk, "", _ => "", OverlongOrigin, faults, |Wanted|, Wanted);
  }

  lemma StrayForecast(faults: Faults)
    requires faults.write == SecondWriteFails && Calm(faults)
    ensures Ending(EmptyDisk, OverlongOrigin, faults, 1) == Some(Progress(1, "", 2, 2, 6))
  {
    var a := Prepared(faults, 0, "", 0, 1);
    assert a == Step(true, Progress(0, "", 0, 0, 3));
    var body := Body([Wanted, [9]], Eof);
    assert body.chunks[1..] == [[9]] && [[9]][1..] == [];
    var q := Restarted(faults, a.p).p;
    assert q == Progress(0, "", 0, 0, 6);
    var one := Received(faults, q, 1, 0);
    assert one == Step(true, Progress(1, "", 0, 1, 6));
    var two := Received(faults, one.p, 1, 1);
    assert two == Step(false, Progress(1, "", 2, 2, 6));
    assert Streamed(faults, one.p, [[9]], 1) == two;
    assert Streamed(faults, q, body.chunks, 0) == two;
    assert Tried(faults, a.p, OverlongOrigin, 0, 1) == (Retry, two.p);
    var try := Trying(faults, OverlongOrigin, 1);
    assert Repeated(try, two.p, 1, 1) == Step(true, two.p);
    assert Repeated(try, a.p, 0, 1) == Repeated(try, two.p, 1, 1);
  }

  /******* A mismatch with an honest origin *******/

  // Nothing but the blob has the digest.
  ghost predicate Pins(hash: Bytes -> Digest, dgst: Digest, blob: Bytes) {
    forall f :: hash(f) == dgst ==> f == blob
  }

  // A first life received the blob and was killed while removing its spool; a second one met an origin
  // that answers a plain request with a partial response, and was killed before the sync. The third
  // finds the spool complete, asks nobody and throws it away.
  method ThirdOpen(blob: Bytes, dgst: Digest, hash: Bytes -> Digest, origin: Origin, faults: Faults) returns (s: Session)
    requires blob != [] && Pins(hash, dgst, blob) && Calm(faults)
    ensures s.result.Mismatch?
  {
    StaleIsReachable(blob);
    GarbageIsReachable(blob);
    var stale, f := Reboot(Clear(Finished(blob)), []), Garbage([], blob, |blob|);
    var disk := Reboot(Write(stale, 0, blob), f);
    assert disk.part[..|blob|] == f;
    ghost var verified;
    s, verified := Open(disk, dgst, hash, origin, faults, |blob|, blob);
  }

  /******* Whole lives *******/

  // One life of the process: the origin and the faults it meets, whether a reader was drained
  // before being closed and the faults of that, and where it was killed - any point of the trail,
  // with any surviving file.
  datatype Life = Life(origin: Origin, faults: Faults, drained: bool, closing: Faults, killed: bool, at: nat, survivor: Bytes)

  // Nothing but writes failed, and it was not killed.
  ghost predicate Undisturbed(life: Life) {
    Calm(life.faults) && Calm(life.closing) && !life.killed
  }

  // Closing a drained reader removes the spool; an abandoned one keeps it for the next Open.
  method Close(disk: Disk, drained: bool, faults: Faults, ghost blob: Bytes) returns (trail: seq<Disk>)
    requires DiskOk(disk)
    ensures trail != [] && trail[0] == disk && Trailed(Last(trail), trail)
    ensures !drained ==> trail == [disk]
    ensures drained && Calm(faults) ==> Last(trail) == Record(Clear(disk), NoSidecar)
    ensures Sane(disk, blob) ==> AllSane(trail, blob)
  {
    var sp := new Spool(disk, "", _ => "", faults);
    if drained {
      sp.Discard(blob);
    }
    trail := sp.trail;
  }

  // One that answers a plain request with a partial response does so only while nothing but writes
  // has failed and no life was cut short.
  ghost predicate LivesOk(lives: seq<Life>) {
    forall i :: 0 <= i < |lives| ==>
      PlainInFull(lives[i].origin) || (Calm(lives[i].faults) && forall j :: 0 <= j < i ==> Undisturbed(lives[j]))
  }

  // Every reader yields exactly the blob.
  predicate OnlyBlob(results: seq<OpenResult>, blob: Bytes) {
    forall i :: 0 <= i < |results| && results[i].Reader? ==> results[i].content == blob
  }

  predicate NoMismatch(results: seq<OpenResult>) {
    forall i :: 0 <= i < |results| ==> !results[i].Mismatch?
  }

  // Over any number of lives, origins that serve slices of the blob and kills at any instant: every
  // reader yields exactly the blob, if nothing else has its digest. If plain requests are answered
  // in full, it does so even where something else has, no download is ever discarded as a mismatch,
  // and the spool can always be trusted again.
  method Lives(dgst: Digest, hash: Bytes -> Digest, blob: Bytes, lives: seq<Life>)
    returns (results: seq<OpenResult>, disk: Disk)
    requires hash(blob) == dgst && forall i :: 0 <= i < |lives| ==> Honest(lives[i].origin, blob)
    ensures |results| == |lives|
    ensures Pins(hash, dgst, blob) || LivesOk(lives) ==> OnlyBlob(results, blob)
    ensures LivesOk(lives) ==> NoMismatch(results) && Sane(disk, blob) && Recoverable(disk, blob)
  {
    disk, results := EmptyDisk, [];
    var i := 0;
    while i < |lives|
      invariant 0 <= i <= |lives| && |results| == i && DiskOk(disk)
      invariant LivesOk(lives) ==> Sane(disk, blob) && NoMismatch(results)
      invariant LivesOk(lives) && (forall j :: 0 <= j < i ==> Undisturbed(lives[j])) ==> !Stale(disk)
      invariant Pins(hash, dgst, blob) || LivesOk(lives) ==> OnlyBlob(results, blob)
    {
      var result;
      result, disk := Live(dgst, hash, blob, disk, lives[i]);
      results := results + [result];
      i := i + 1;
    }
    if LivesOk(lives) {
      SaneIsRecoverable(disk, blob);
    }
  }

  method Live(dgst: Digest, hash: Bytes -> Digest, blob: Bytes, disk: Disk, life: Life) returns (result: OpenResult, after: Disk)
    requires hash(blob) == dgst && DiskOk(disk) && Honest(life.origin, blob)
    ensures DiskOk(after) && (Pins(hash, dgst, blob) && result.Reader? ==> result.content == blob)
    ensures Trusted(disk, life.origin, life.faults, blob) ==>
              && !result.Mismatch? && (result.Reader? ==> result.content == blob)
              && Sane(after, blob) && (!Stale(disk) && Undisturbed(life) ==> !Stale(after))
  {
    var s; ghost var verified;
    s, verified := Open(disk, dgst, hash, life.origin, life.faults, |blob|, blob);
    HonestIsWithin(life.origin, blob);
    var trail := s.trail;
    if s.result.Reader? {
      var closing := Close(Last(trail), life.drained, life.closing, blob);
      trail := trail + closing;
    }
    result, after := s.result, Last(trail);
    if life.killed && life.at < |trail| && Survives(trail[life.at], life.survivor) {
      assert trail[life.at] in trail;
      if Sane(trail[life.at], blob) {
        RebootSane(trail[life.at], life.survivor, blob);
      }
      after := Reboot(trail[life.at], life.survivor);
    }
  }
}
