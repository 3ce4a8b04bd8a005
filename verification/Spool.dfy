/**
 The spool of one digest while a download is using it: the disk, and in memory the offset, the
 origin's validator and the running verifier.

 Every file operation may fail; a failed write may leave any part of its bytes behind. `trail`
 holds the disk after every operation, so it lists every state in which the process can be killed.
 */
module Spool {
  import opened Wrappers
  import opened Origins
  import opened Forecast
  import opened SpoolDisk

  ghost predicate Trailed(disk: Disk, trail: seq<Disk>) {
    DiskOk(disk) && trail != [] && trail[|trail| - 1] == disk && forall d :: d in trail ==> DiskOk(d)
  }

  // At no point of the trail would a crash make the sidecar vouch for anything but the blob.
  ghost predicate AllSane(trail: seq<Disk>, blob: Bytes) {
    forall d :: d in trail ==> Sane(d, blob)
  }

  ghost predicate InStep(disk: Disk, offset: nat, reach: nat, verifier: Option<Bytes>) {
    && offset <= |disk.part| == Max(offset, reach)
    && (verifier.Some? ==> verifier.value == disk.part[..offset])
  }

  ghost predicate PrefixOf(disk: Disk, offset: nat, blob: Bytes) {
    && Sane(disk, blob)
    && offset <= |disk.part| && disk.part[..offset] <= blob
    && (offset > 0 ==> disk.sidecar.offset <= offset)
  }

  // Neither half of a checkpoint disturbs a spool that is in step.
  lemma CheckpointKeeps(d: Disk, offset: nat, reach: nat, verifier: Option<Bytes>, validator: string, blob: Bytes)
    requires DiskOk(d) && InStep(d, offset, reach, verifier)
    ensures var s := Sync(d);
            var r := Record(s, Sidecar(offset, validator));
            && DiskOk(s) && InStep(s, offset, reach, verifier) && DiskOk(r) && InStep(r, offset, reach, verifier)
            && (PrefixOf(d, offset, blob) ==> PrefixOf(s, offset, blob) && PrefixOf(r, offset, blob))
  {
    if PrefixOf(d, offset, blob) {
      SyncSane(d, blob);
      RecordSane(Sync(d), Sidecar(offset, validator), blob);
    }
  }

  lemma ResetKeeps(d: Disk, offset: nat, blob: Bytes)
    requires DiskOk(d)
    ensures var c := Clear(d);
            && DiskOk(c) && InStep(c, 0, 0, Some([])) && (PrefixOf(d, offset, blob) ==> PrefixOf(c, 0, blob))
  {
    if PrefixOf(d, offset, blob) {
      ClearSane(d, blob);
    }
  }

  class Spool {
    const dgst: Digest
    const hash: Bytes -> Digest
    const faults: Faults

    var disk: Disk
    var offset: nat
    var validator: string
    var verifier: Option<Bytes>   // the bytes the running digest has consumed
    var resumed: bool

    var writes: nat               // writes so far
    var ops: nat                  // other operations so far

    var trail: seq<Disk>          // the disk after every operation
    ghost var reach: nat          // how far failed writes reached into the file

    constructor (disk: Disk, dgst: Digest, hash: Bytes -> Digest, faults: Faults)
      ensures this.disk == disk && this.dgst == dgst && this.hash == hash && this.faults == faults && trail == [disk]
      ensures verifier == None && writes == ops == 0
    {
      this.dgst, this.hash, this.faults, this.disk := dgst, hash, faults, disk;
      offset, validator, verifier, resumed, writes, ops := 0, "", None, false, 0, 0;
      trail, reach := [disk], |disk.part|;
    }

    ghost function Now(): Progress
      reads this
    {
      Progress(offset, validator, reach, writes, ops)
    }

    // The next operation other than a write.
    method Fails() returns (failed: bool)
      modifies this`ops
      ensures failed == faults.other(old(ops)) && ops == old(ops) + 1
    {
      failed := faults.other(ops);
      ops := ops + 1;
    }

    ghost predicate TrailOk()
      reads this
    {
      Trailed(disk, trail)
    }

    ghost predicate TrailSane(blob: Bytes)
      reads this
    {
      AllSane(trail, blob)
    }

    // The verifier has consumed exactly the first `offset` bytes of the file.
    ghost predicate Valid()
      reads this
    {
      TrailOk() && InStep(disk, offset, reach, verifier)
    }

    // What holds throughout when the bytes come from one fixed blob.
    ghost predicate Faithful(blob: Bytes)
      reads this
    {
      TrailSane(blob) && PrefixOf(disk, offset, blob)
    }

    // The disk after one more operation.
    method Advance(next: Disk, ghost blob: Bytes)
      requires TrailOk() && DiskOk(next)
      modifies this`disk, this`trail
      ensures disk == next && trail == old(trail) + [next] && TrailOk()
      ensures old(TrailSane(blob)) && Sane(next, blob) ==> TrailSane(blob)
    {
      disk := next;
      trail := trail + [next];
    }

    // Ready to be written at `offset`: the sidecar does not claim anything at or above it.
    ghost predicate Writable()
      reads this
    {
      disk.sidecar.offset <= offset
    }

    // Adopt what is on disk: the recorded offset wins over the file length, both ways. A sidecar
    // that cannot be read counts as none.
    method Attach(ghost blob: Bytes) returns (ok: bool)
      requires DiskOk(disk) && trail == [disk] && writes == ops == 0
      modifies this
      ensures Step(ok, Now()) == Attached(faults, old(disk).sidecar.offset, old(disk).sidecar.validator, |old(disk).part|)
      ensures ok ==> Valid() && verifier == None && |disk.part| == offset
      ensures ok ==> disk.part == old(disk).part[..offset] && disk.sidecar == old(disk).sidecar && (resumed <==> offset > 0)
      ensures old(trail) <= trail && TrailOk()
      ensures Sane(old(disk), blob) ==> TrailSane(blob) && (ok ==> Faithful(blob))
    {
      Recall();
      var failed := Fails();
      if failed {
        return false;
      }
      if |disk.part| > offset {
        failed := Fails();
        if failed {
          return false;
        }
        Shorten(blob);
      } else {
        assert disk.part == disk.part[..offset];
      }
      resumed := offset > 0;
      ok := true;
    }

    // Read the sidecar, if it can be read.
    method Recall()
      modifies this`offset, this`validator, this`reach, this`verifier, this`ops
      ensures offset == if faults.other(old(ops)) then 0 else Min(disk.sidecar.offset, |disk.part|)
      ensures validator == if faults.other(old(ops)) then "" else disk.sidecar.validator
      ensures reach == 0 && verifier == None && ops == old(ops) + 1
    {
      var unreadable := Fails();
      offset, validator := 0, "";
      if !unreadable {
        offset, validator := disk.sidecar.offset, disk.sidecar.validator;
      }
      reach, verifier := 0, None;
      if offset > |disk.part| {
        offset := |disk.part|;
      }
    }

    // Cut the file to the offset; cutting it to nothing empties it.
    method Shorten(ghost blob: Bytes)
      requires DiskOk(disk) && trail == [disk] && offset < |disk.part|
      modifies this`disk, this`trail
      ensures trail == old(trail) + [disk] && TrailOk()
      ensures disk.part == old(disk.part)[..offset] && disk.sidecar == old(disk.sidecar)
      ensures Sane(old(disk), blob) && (offset == 0 || disk.sidecar.offset == offset) ==> Sane(disk, blob) && TrailSane(blob)
    {
      if offset == 0 {
        if Sane(disk, blob) { ClearSane(disk, blob); }
        Advance(Clear(disk), blob);
      } else {
        if Sane(disk, blob) && disk.sidecar.offset == offset { TrimSane(disk, offset, blob); }
        Advance(Trim(disk, offset), blob);
      }
    }

    // Restore the running digest by reading the spooled bytes back.
    method Rehash() returns (ok: bool)
      requires Valid()
      modifies this`verifier, this`ops
      ensures Valid()
      ensures Step(ok, Now()) == if offset == 0 then Step(true, old(Now())) else Step(!faults.other(old(ops)), old(Now()).(ops := old(ops) + 1))
      ensures ok ==> verifier == Some(disk.part[..offset])
    {
      if offset > 0 {
        var failed := Fails();
        if failed {
          verifier := None;
          return false;
        }
      }
      verifier := Some(disk.part[..offset]);
      ok := true;
    }

    // Make the received bytes durable, then let the sidecar claim them - in that order.
    method Checkpoint(ghost blob: Bytes) returns (ok: bool)
      requires Valid()
      modifies this`disk, this`trail, this`ops
      ensures Valid() && disk.part == old(disk.part) && old(trail) <= trail
      ensures Step(ok, Now()) == Checkpointed(faults, old(Now()))
      ensures ok ==> disk == Record(Sync(old(disk)), Sidecar(offset, validator))
      ensures !ok ==> disk == old(disk) || disk == Sync(old(disk))
      ensures old(Writable()) ==> Writable()
      ensures old(Faithful(blob)) ==> Faithful(blob)
    {
      CheckpointKeeps(disk, offset, reach, verifier, validator, blob);
      var failed := Fails();
      if failed {
        return false;
      }
      Advance(Sync(disk), blob);
      failed := Fails();
      if failed {
        return false;
      }
      Advance(Record(disk, Sidecar(offset, validator)), blob);
      ok := true;
    }

    // Start over from byte zero.
    method Reset(ghost blob: Bytes) returns (ok: bool)
      requires Valid()
      modifies this
      ensures Valid() && old(trail) <= trail
      ensures Step(ok, Now()) == Restarted(faults, old(Now()))
      ensures ok ==> offset == 0 && disk.part == [] && validator == "" && verifier == Some([])
                     && reach == 0 && disk.sidecar == Sidecar(0, "") && Writable()
      ensures !ok ==> (offset == 0 && disk.part == [] && verifier == Some([]) && reach == 0)
                      || (offset == old(offset) && disk == old(disk) && verifier == old(verifier)
                          && reach == old(reach) && validator == old(validator))
      ensures old(Faithful(blob)) ==> Faithful(blob)
    {
      var failed := Fails();
      if failed {
        return false;
      }
      ResetKeeps(disk, offset, blob);
      Advance(Clear(disk), blob);
      reach := 0;
      offset, validator, resumed, verifier := 0, "", false, Some([]);
      ok := Checkpoint(blob);
    }

    // One write at the offset; a failed one leaves some of its bytes behind.
    method WriteAt(b: Bytes, ghost blob: Bytes) returns (ok: bool)
      requires Valid()
      modifies this`disk, this`trail, this`reach, this`writes
      ensures DiskOk(disk) && disk.sidecar == old(disk.sidecar) && TrailOk()
      ensures trail == old(trail) + [disk] && writes == old(writes) + 1
      ensures offset <= |disk.part| && disk.part[..offset] == old(disk.part[..offset])
      ensures ok <==> faults.write(old(writes)).None?
      ensures ok ==> |disk.part| == Max(|old(disk.part)|, offset + |b|) && reach == old(reach)
                     && disk.part[..offset + |b|] == old(disk.part[..offset]) + b
      ensures !ok ==> reach == Max(old(reach), offset + Min(faults.write(old(writes)).value, |b|))
                      && |disk.part| == Max(offset, reach)
      ensures Sane(old(disk), blob) && old(Writable()) ==> Sane(disk, blob) && (old(TrailSane(blob)) ==> TrailSane(blob))
    {
      var fault := faults.write(writes);
      var n := if fault.Some? then Min(fault.value, |b|) else |b|;
      if Sane(disk, blob) && Writable() { WriteSane(disk, offset, b[..n], blob); }
      OverwrittenIs(disk.part, offset, b[..n]);
      Advance(Write(disk, offset, b[..n]), blob);
      writes := writes + 1;
      assert n == |b| ==> b[..n] == b;
      if fault.Some? {
        reach := Max(reach, offset + n);
      }
      ok := fault.None?;
    }

    // One read of the body: onto the file, into the running digest, and into the offset.
    method WriteChunk(b: Bytes, ghost blob: Bytes) returns (ok: bool)
      requires Valid() && verifier.Some?
      modifies this
      ensures Valid() && verifier.Some? && old(trail) <= trail
      ensures Step(ok, Now()) == Written(faults, old(Now()), |b|)
      ensures disk.sidecar == old(disk.sidecar)
      ensures disk.part[..offset] == if ok then old(disk.part[..offset]) + b else old(disk.part[..offset])
      ensures old(Faithful(blob)) && old(Writable()) && (ok ==> old(disk.part[..offset]) + b <= blob)
              ==> Faithful(blob) && Writable()
    {
      ok := WriteAt(b, blob);
      if ok {
        offset := offset + |b|;
        verifier := Some(verifier.value + b);
      }
    }

    // One read of the body, followed by a checkpoint when enough bytes came since the last one.
    method Receive(b: Bytes, since: nat, ghost blob: Bytes) returns (ok: bool, sinceNow: nat)
      requires Valid() && verifier.Some?
      modifies this
      ensures Valid() && verifier.Some? && old(trail) <= trail
      ensures Step(ok, Now()) == Received(faults, old(Now()), |b|, since)
      ensures ok && since < CheckpointEvery ==> sinceNow == SinceAfter(|b|, since)
      ensures disk.part[..offset] == old(disk.part[..offset]) + b || (!ok && disk.part[..offset] == old(disk.part[..offset]))
      ensures ok ==> disk.part[..offset] == old(disk.part[..offset]) + b
      ensures ok && since < 0x80_0000 <= since + |b| ==> disk.sidecar == Sidecar(offset, validator) && disk.safe == disk.part
      ensures since + |b| < 0x80_0000 ==> disk.sidecar == old(disk.sidecar)
      ensures old(Faithful(blob)) && old(Writable()) && old(disk.part[..offset]) + b <= blob
              ==> Faithful(blob) && Writable()
    {
      sinceNow := since;
      if |b| == 0 {
        return true, sinceNow;
      }
      ok := WriteChunk(b, blob);
      if !ok {
        return;
      }
      sinceNow := sinceNow + |b|;
      if sinceNow >= CheckpointEvery {
        ok := Checkpoint(blob);
        sinceNow := 0;
      }
    }

    // Stream a body onto the spool, with a checkpoint every few megabytes and one at the end.
    // k is how many of its chunks were kept.
    method Append(body: Body, ghost blob: Bytes) returns (r: AppendResult, ghost k: nat)
      requires Valid() && verifier.Some?
      modifies this
      ensures Valid() && verifier.Some? && old(trail) <= trail
      ensures (r, Now()) == AfterBody(faults, old(Now()), body)
      ensures k <= |body.chunks| && disk.part[..offset] == old(disk.part[..offset]) + Content(body.chunks[..k])
      ensures r.Appended? ==> body.ending.Eof? && k == |body.chunks|
      ensures r.Appended? || r.Interrupted? ==> disk.sidecar == Sidecar(offset, validator) && disk.safe == disk.part
      ensures validator == old(validator)
      ensures old(Faithful(blob)) && old(Writable()) && old(disk.part[..offset]) + Content(body.chunks) <= blob
              ==> Faithful(blob) && Writable()
    {
      var ok;
      ok, k := Stream(body.chunks, blob);
      if !ok {
        return SpoolError, k;
      }
      ok := Checkpoint(blob);
      match body.ending {
        case Cancelled => r := Stopped;
        case Eof => r := if ok then Appended else SpoolError;
        case Cut => r := if ok then Interrupted else SpoolError;
      }
    }

    method Stream(chunks: seq<Bytes>, ghost blob: Bytes) returns (ok: bool, ghost k: nat)
      requires Valid() && verifier.Some?
      modifies this
      ensures Valid() && verifier.Some? && old(trail) <= trail
      ensures Step(ok, Now()) == Streamed(faults, old(Now()), chunks, 0) && validator == old(validator)
      ensures k <= |chunks| && disk.part[..offset] == old(disk.part[..offset]) + Content(chunks[..k])
      ensures ok ==> k == |chunks|
      ensures old(Faithful(blob)) && old(Writable()) && old(disk.part[..offset]) + Content(chunks) <= blob
              ==> Faithful(blob) && Writable()
    {
      ghost var start, p := disk.part[..offset], Now();
      ghost var honest := Faithful(blob) && Writable() && start + Content(chunks) <= blob;
      var i := 0;
      var since: nat := 0;
      assert start + [] == start && chunks[0..] == chunks;
      while i < |chunks|
        invariant 0 <= i <= |chunks| && since < CheckpointEvery
        invariant Valid() && verifier.Some? && old(trail) <= trail && validator == p.validator
        invariant Streamed(faults, p, chunks, 0) == Streamed(faults, Now(), chunks[i..], since)
        invariant disk.part[..offset] == start + Content(chunks[..i])
        invariant honest ==> Faithful(blob) && Writable()
      {
        ok, since, k := ReceiveNth(chunks, i, since, start, honest, blob);
        if !ok {
          return;
        }
        i := i + 1;
      }
      assert chunks[..i] == chunks && chunks[i..] == [];
      ok, k := true, i;
    }

    // The i-th chunk of a body that began at `start`.
    method ReceiveNth(chunks: seq<Bytes>, i: nat, since: nat, ghost start: Bytes, ghost honest: bool, ghost blob: Bytes)
      returns (ok: bool, sinceNow: nat, ghost k: nat)
      requires Valid() && verifier.Some? && i < |chunks| && since < CheckpointEvery
      requires disk.part[..offset] == start + Content(chunks[..i])
      requires honest ==> Faithful(blob) && Writable() && start + Content(chunks) <= blob
      modifies this
      ensures Valid() && verifier.Some? && old(trail) <= trail && validator == old(validator)
      ensures Streamed(faults, old(Now()), chunks[i..], since)
              == if ok then Streamed(faults, Now(), chunks[i + 1..], sinceNow) else Step(false, Now())
      ensures sinceNow < CheckpointEvery || !ok
      ensures i <= k <= i + 1 && (ok ==> k == i + 1) && disk.part[..offset] == start + Content(chunks[..k])
      ensures honest ==> Faithful(blob) && Writable()
    {
      ContentStep(start, chunks, i, blob);
      StreamedStep(faults, Now(), chunks, i, since);
      ghost var had := disk.part[..offset];
      ok, sinceNow := Receive(chunks[i], since, blob);
      k := if !ok && disk.part[..offset] == had then i else i + 1;
    }

    // Whether the spooled bytes hash to the expected digest.
    method Verified() returns (ok: bool)
      requires Valid()
      ensures ok <==> verifier.Some? && hash(disk.part[..offset]) == dgst
    {
      ok := verifier.Some? && |verifier.value| == offset && hash(verifier.value) == dgst;
    }

    // Remove the file, then the sidecar; a removal that fails is ignored.
    method Discard(ghost blob: Bytes)
      requires TrailOk()
      modifies this`disk, this`trail, this`ops
      ensures old(trail) <= trail && TrailOk()
      ensures var part := if faults.other(old(ops)) then old(disk) else Clear(old(disk));
              disk == if faults.other(old(ops) + 1) then part else Record(part, NoSidecar)
      ensures old(TrailSane(blob)) ==> TrailSane(blob)
    {
      assert disk in trail;
      var failed := Fails();
      if !failed {
        if Sane(disk, blob) { ClearSane(disk, blob); }
        Advance(Clear(disk), blob);
      }
      failed := Fails();
      if !failed {
        if Sane(disk, blob) { RecordSane(disk, NoSidecar, blob); }
        Advance(Record(disk, NoSidecar), blob);
      }
    }
  }
}
