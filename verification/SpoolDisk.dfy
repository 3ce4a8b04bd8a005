/**
 One blob's spool on disk: the partial file and its sidecar, and what a crash leaves of them.

 The file's content is what the process sees; `safe` is what the last sync made durable. After a
 crash, bytes written since that sync may be there, missing or garbage, a shortening may have
 happened or not, and emptying the file happened wholly or not at all. The sidecar is replaced
 atomically and durably.
 */
module SpoolDisk {
  import opened Wrappers

  datatype Sidecar = Sidecar(offset: nat, validator: string)

  datatype Disk = Disk(
    part: Bytes,       // the file, as the running process sees it
    safe: Bytes,       // the file at the last sync
    keep: nat,         // its least length since then, emptying aside
    dirty: nat,        // the lowest position written since then
    end: nat,          // the highest end of a write since then
    cleared: bool,     // emptied since then
    refill: nat,       // the highest end of a write since it was emptied
    sidecar: Sidecar)

  const NoSidecar := Sidecar(0, "")
  const EmptyDisk := Disk([], [], 0, 0, 0, false, 0, NoSidecar)

  /******* The primitive operations *******/

  function Overwritten(s: Bytes, pos: nat, b: Bytes): Bytes
    requires pos <= |s|
  {
    s[..pos] + b + if pos + |b| <= |s| then s[pos + |b|..] else []
  }

  lemma OverwrittenIs(s: Bytes, pos: nat, b: Bytes)
    requires pos <= |s|
    ensures |Overwritten(s, pos, b)| == Max(|s|, pos + |b|)
    ensures Overwritten(s, pos, b)[..pos] == s[..pos]
    ensures Overwritten(s, pos, b)[..pos + |b|] == s[..pos] + b
  {
  }

  function Write(d: Disk, pos: nat, b: Bytes): Disk
    requires pos <= |d.part|
  {
    d.(part := Overwritten(d.part, pos, b), dirty := Min(d.dirty, pos), end := Max(d.end, pos + |b|),
       refill := if d.cleared then Max(d.refill, pos + |b|) else d.refill)
  }

  function Trim(d: Disk, n: nat): Disk
    requires n <= |d.part|
  {
    d.(part := d.part[..n], keep := Min(d.keep, n))
  }

  function Clear(d: Disk): Disk {
    d.(part := [], cleared := true, refill := if d.cleared then d.refill else 0)
  }

  function Sync(d: Disk): Disk {
    d.(safe := d.part, keep := |d.part|, dirty := |d.part|, end := 0, cleared := false, refill := 0)
  }

  function Record(d: Disk, s: Sidecar): Disk {
    d.(sidecar := s)
  }

  /******* Crashes *******/

  predicate DiskOk(d: Disk) {
    d.keep <= |d.safe| && d.dirty <= |d.safe|
  }

  // f is a possible content of the file after a crash.
  predicate Survives(d: Disk, f: Bytes)
    requires DiskOk(d)
  {
    var solid := Min(d.keep, d.dirty);
    || (d.keep <= |f| <= Max(|d.safe|, d.end) && f[..solid] == d.safe[..solid])
    || (d.cleared && |f| <= d.refill)
  }

  // What is on disk after the restart is all there is.
  function Reboot(d: Disk, f: Bytes): Disk {
    Disk(f, f, |f|, |f|, 0, false, 0, d.sidecar)
  }

  // The bytes the sidecar vouches for.
  function Vouched(d: Disk, f: Bytes): Bytes {
    f[..Min(d.sidecar.offset, |f|)]
  }

  // Whatever a crash leaves, the sidecar only vouches for bytes of the blob.
  ghost predicate Recoverable(d: Disk, blob: Bytes)
    requires DiskOk(d)
  {
    forall f :: Survives(d, f) ==> Vouched(d, f) <= blob
  }

  // The bytes a crash can put where the sidecar looks.
  function Exposed(d: Disk): nat {
    Min(d.sidecar.offset, Max(|d.safe|, d.end))
  }

  predicate Settled(d: Disk, blob: Bytes)
    requires DiskOk(d)
  {
    && Exposed(d) <= Min(d.keep, d.dirty)
    && d.safe[..Exposed(d)] <= blob
    && (d.cleared ==> d.sidecar.offset == 0 || d.refill == 0)
  }

  // Content of a given length that agrees with `start` and then leaves the blob.
  function Garbage(start: Bytes, blob: Bytes, n: nat): (f: Bytes)
    requires |start| < n
    ensures |f| == n && f[..|start|] == start
    ensures |start| < |blob| ==> f[|start|] != blob[|start|]
  {
    var wrong: bv8 := if |start| < |blob| && blob[|start|] == 0 then 1 else 0;
    var f := start + [wrong] + seq(n - |start| - 1, _ => 0);
    assert f[..|start|] == start && f[|start|] == wrong;
    f
  }

  // Crash safety is exactly this: everything the sidecar claims was synced and not touched since.
  lemma RecoverableIff(d: Disk, blob: Bytes)
    requires DiskOk(d)
    ensures Recoverable(d, blob) <==> Settled(d, blob)
  {
    if Settled(d, blob) {
      forall f | Survives(d, f) ensures Vouched(d, f) <= blob {
        SettledVouches(d, blob, f);
      }
    }
    if !Settled(d, blob) {
      UnsettledLoses(d, blob);
    }
  }

  lemma SettledVouches(d: Disk, blob: Bytes, f: Bytes)
    requires DiskOk(d) && Settled(d, blob) && Survives(d, f)
    ensures Vouched(d, f) <= blob
  {
    var solid := Min(d.keep, d.dirty);
    var k := Min(d.sidecar.offset, |f|);
    if d.keep <= |f| <= Max(|d.safe|, d.end) && f[..solid] == d.safe[..solid] {
      assert k <= Exposed(d) <= solid;
      assert f[..k] == f[..solid][..k] == d.safe[..solid][..k] == d.safe[..k];
      assert d.safe[..k] == d.safe[..Exposed(d)][..k];
    }
  }

  lemma UnsettledLoses(d: Disk, blob: Bytes)
    requires DiskOk(d) && !Settled(d, blob)
    ensures !Recoverable(d, blob)
  {
    var solid, n := Min(d.keep, d.dirty), Max(|d.safe|, d.end);
    if Exposed(d) > solid {
      var f := Garbage(d.safe[..solid], blob, n);
      assert Survives(d, f);
      assert Vouched(d, f)[solid] == f[solid];
    } else if !(d.safe[..Exposed(d)] <= blob) {
      var f := d.safe[..solid] + seq(n - solid, _ => 0);
      assert f[..solid] == d.safe[..solid];
      assert Survives(d, f);
      assert Vouched(d, f) == f[..Exposed(d)] == f[..solid][..Exposed(d)] == d.safe[..Exposed(d)];
    } else {
      var f := Garbage([], blob, d.refill);
      assert Survives(d, f);
      assert Vouched(d, f)[0] == f[0];
    }
  }

  /******* The invariant of a spool fed by an honest origin *******/

  ghost predicate Sane(d: Disk, blob: Bytes) {
    var o := d.sidecar.offset;
    && DiskOk(d)
    && (|| (o <= d.keep && o <= d.dirty && d.safe[..o] <= blob)
        || (d.safe == [] && d.end == 0 && d.part == []))
    && (d.cleared && o > 0 ==> d.part == [] && d.refill == 0)
    && (d.part == [] || o <= |d.part|)
    && (o <= |d.part| ==> d.part[..o] <= blob)
  }

  lemma SaneIsRecoverable(d: Disk, blob: Bytes)
    requires Sane(d, blob)
    ensures Recoverable(d, blob)
  {
    RecoverableIff(d, blob);
  }

  lemma RebootSane(d: Disk, f: Bytes, blob: Bytes)
    requires Sane(d, blob) && Survives(d, f)
    ensures Sane(Reboot(d, f), blob)
  {
    var o := d.sidecar.offset;
    if o <= |f| {
      SaneIsRecoverable(d, blob);
      assert Vouched(d, f) <= blob;
    }
  }

  lemma WriteSane(d: Disk, pos: nat, b: Bytes, blob: Bytes)
    requires Sane(d, blob) && pos <= |d.part| && d.sidecar.offset <= pos
    ensures Sane(Write(d, pos, b), blob)
    ensures Write(d, pos, b).part[..pos] == d.part[..pos]
  {
    var o := d.sidecar.offset;
    var w := Write(d, pos, b);
    assert w.part[..pos] == d.part[..pos];
    assert w.part[..o] == d.part[..pos][..o] == d.part[..o];
  }

  lemma ClearSane(d: Disk, blob: Bytes)
    requires Sane(d, blob)
    ensures Sane(Clear(d), blob)
  {
  }

  lemma TrimSane(d: Disk, n: nat, blob: Bytes)
    requires Sane(d, blob) && d.sidecar.offset <= n <= |d.part|
    ensures Sane(Trim(d, n), blob)
  {
    assert d.part[..n][..d.sidecar.offset] == d.part[..d.sidecar.offset];
  }

  lemma SyncSane(d: Disk, blob: Bytes)
    requires Sane(d, blob)
    ensures Sane(Sync(d), blob)
  {
  }

  // The sidecar may claim only what a sync has covered.
  lemma RecordSane(d: Disk, s: Sidecar, blob: Bytes)
    requires Sane(d, blob) && s.offset <= |d.part| && d.part[..s.offset] <= blob
    requires d == Sync(d) || s.offset == 0
    ensures Sane(Record(d, s), blob)
  {
  }

  // A sidecar that outlived its file: nothing is wrong until a byte of the very blob is written.
  lemma StaleSidecarBreaks()
    ensures var d, blob := Reboot(Record(EmptyDisk, Sidecar(1, "")), []), [7];
            Sane(d, blob) && Recoverable(d, blob) && !Recoverable(Write(d, 0, blob), blob)
  {
    var d, blob: Bytes := Reboot(Record(EmptyDisk, Sidecar(1, "")), []), [7];
    SaneIsRecoverable(d, blob);
    RecoverableIff(Write(d, 0, blob), blob);
  }

  // The disk after a blob was received, made durable and recorded.
  function Finished(blob: Bytes): Disk {
    Record(Sync(Write(EmptyDisk, 0, blob)), Sidecar(|blob|, ""))
  }

  // How a sidecar outlives its file: a kill between the two removals of a finished spool.
  lemma StaleIsReachable(blob: Bytes)
    requires blob != []
    ensures Sane(Finished(blob), blob) && Survives(Clear(Finished(blob)), [])
    ensures var stale := Reboot(Clear(Finished(blob)), []); stale.sidecar.offset == |blob| && stale.part == []
  {
    OverwrittenIs([], 0, blob);
    assert Write(EmptyDisk, 0, blob).part[..|blob|] == [] + blob;
  }

  // And how it comes to vouch for what is not the blob: the blob is received again without a fresh
  // sidecar, and killed before the sync.
  lemma GarbageIsReachable(blob: Bytes)
    requires blob != []
    ensures var f := Garbage([], blob, |blob|);
            f != blob && Survives(Write(Reboot(Clear(Finished(blob)), []), 0, blob), f)
  {
    OverwrittenIs([], 0, blob);
    assert Garbage([], blob, |blob|)[0] != blob[0];
  }

  // A spool whose sidecar outlived its data may be written without first rewriting the sidecar
  // exactly when it did not outlive it: otherwise the next crash makes it vouch for garbage.
  lemma ResumeSafeIff(d: Disk, f: Bytes, b: Bytes, blob: Bytes)
    requires b != []
    ensures var r := Reboot(d, f);
            var m := Min(d.sidecar.offset, |f|);
            Recoverable(Write(r, m, b), blob) <==> d.sidecar.offset <= |f| && Recoverable(r, blob)
  {
    var r := Reboot(d, f);
    var m := Min(d.sidecar.offset, |f|);
    RecoverableIff(r, blob);
    RecoverableIff(Write(r, m, b), blob);
  }
}
