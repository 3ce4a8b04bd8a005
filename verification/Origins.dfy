/**
 What a download meets: an origin that answers requests, and a disk whose operations may fail.

 Both are inputs. An origin is any function of the attempt number, the requested range and the
 If-Range validator; the faults are any function of the number of the operation.
 */
module Origins {
  import opened Wrappers

  // A response body: the chunks its reads deliver, then how it stops.
  datatype Ending = Eof | Cut | Cancelled
  datatype Body = Body(chunks: seq<Bytes>, ending: Ending)

  function Content(chunks: seq<Bytes>): Bytes {
    if chunks == [] then [] else Content(chunks[..|chunks| - 1]) + chunks[|chunks| - 1]
  }

  // A parsed Content-Range; the total is None when the origin sent "*".
  datatype ContentRange = ContentRange(start: nat, total: Option<nat>)

  datatype Reply =
    | Unreachable(cancelled: bool)
    | Full(validator: string, body: Body)
    | Partial(range: Option<ContentRange>, validator: string, body: Body)
    | OtherStatus

  type Origin = (nat, Option<nat>, string) -> Reply

  // The n-th file write succeeds, or fails and leaves some of its bytes behind; the n-th of the
  // other operations (and of the waits between attempts) fails or not.
  datatype Faults = Faults(write: nat -> Option<nat>, other: nat -> bool)

  ghost predicate Calm(f: Faults) {
    forall n :: !f.other(n)
  }

  ghost predicate WritesSucceed(f: Faults) {
    forall n :: f.write(n).None?
  }

  /******* Origins that serve one blob *******/

  // A full answer is the blob from its start, a partial one the blob from where it was asked for;
  // both possibly cut short.
  predicate HonestReply(reply: Reply, range: Option<nat>, blob: Bytes) {
    match reply
    case Full(_, body) => Content(body.chunks) <= blob
    case Partial(cr, _, body) =>
      var off := if range.Some? then range.value else 0;
      cr.Some? && cr.value.start == off ==> off <= |blob| && Content(body.chunks) <= blob[off..]
    case _ => true
  }

  ghost predicate Honest(origin: Origin, blob: Bytes) {
    forall a, r, v :: HonestReply(origin(a, r, v), r, blob)
  }

  // A request without a range is not answered by a partial response.
  ghost predicate PlainInFull(origin: Origin) {
    forall a, v :: !origin(a, None, v).Partial?
  }

  // No accepted answer carries bytes beyond position n.
  predicate WithinReply(reply: Reply, range: Option<nat>, n: int) {
    match reply
    case Full(_, body) => |Content(body.chunks)| <= n
    case Partial(cr, _, body) =>
      var off := if range.Some? then range.value else 0;
      cr.Some? && cr.value.start == off ==> off + |Content(body.chunks)| <= n
    case _ => true
  }

  ghost predicate Within(origin: Origin, n: int) {
    forall a, r, v :: WithinReply(origin(a, r, v), r, n)
  }

  lemma HonestIsWithin(origin: Origin, blob: Bytes)
    requires Honest(origin, blob)
    ensures Within(origin, |blob|)
  {
    forall a, r, v ensures WithinReply(origin(a, r, v), r, |blob|) {
      assert HonestReply(origin(a, r, v), r, blob);
    }
  }

  /******* Answers that finish a download, and answers that cannot *******/

  // Everything that is missing from position `off` on: the whole blob, or its rest with agreeing start,
  // total and validator.
  predicate ServesRest(reply: Reply, off: nat, validator: string, blob: Bytes) {
    match reply
    case Full(_, body) => Content(body.chunks) == blob && body.ending.Eof?
    case Partial(cr, now, body) =>
      && cr.Some? && cr.value.start == off && (cr.value.total.Some? ==> cr.value.total.value == |blob|)
      && (validator == "" || now == "" || now == validator)
      && off <= |blob| && Content(body.chunks) == blob[off..] && body.ending.Eof?
    case _ => false
  }

  // The given attempt is answered so, wherever the spool ends and whatever validator it has.
  ghost predicate Serves(origin: Origin, attempt: nat, blob: Bytes) {
    && (forall off: nat, v :: 0 < off <= |blob| ==> ServesRest(origin(attempt, Some(off), v), off, v, blob))
    && (forall v :: ServesRest(origin(attempt, None, ""), 0, v, blob))
  }

  // The caller cancelled.
  predicate GivenUp(reply: Reply) {
    match reply
    case Unreachable(cancelled) => cancelled
    case Full(_, body) => body.ending.Cancelled?
    case Partial(_, _, body) => body.ending.Cancelled?
    case OtherStatus => false
  }

  // One of the first three attempts is answered so; before it anything may happen but a cancellation.
  ghost predicate ServedInTime(origin: Origin, blob: Bytes) {
    exists k: nat :: k < 3 && Serves(origin, k, blob) && NotGivenUp(origin, k)
  }

  ghost predicate NotGivenUp(origin: Origin, attempts: nat) {
    forall a: nat, r, v :: a < attempts ==> !GivenUp(origin(a, r, v))
  }

  // The answer does not take a spool that ends at `off` to the given size.
  predicate FallsShort(reply: Reply, off: nat, size: int) {
    match reply
    case Full(_, body) => |Content(body.chunks)| < size
    case Partial(cr, _, body) =>
      cr.Some? && cr.value.start == off && (cr.value.total.Some? ==> cr.value.total.value == size) ==> off + |Content(body.chunks)| < size
    case _ => true
  }

  ghost predicate NeverServed(origin: Origin, size: int) {
    && (forall a: nat, off: nat, v :: a < 3 && off > 0 ==> FallsShort(origin(a, Some(off), v), off, size))
    && (forall a: nat, v :: a < 3 ==> FallsShort(origin(a, None, v), 0, size))
  }

  /******* Bodies *******/

  lemma {:induction false} ContentGrows(chunks: seq<Bytes>, k: nat)
    requires k <= |chunks|
    ensures Content(chunks[..k]) <= Content(chunks)
    decreases |chunks| - k
  {
    if k == |chunks| {
      assert chunks[..k] == chunks;
    } else {
      assert chunks[..k + 1][..k] == chunks[..k];
      ContentGrows(chunks, k + 1);
    }
  }

  lemma Concat(a: Bytes, b: Bytes, c: Bytes)
    ensures (a + b) + c == a + (b + c)
  {
  }

  lemma ContentLast(chunks: seq<Bytes>, k: nat)
    requires k < |chunks|
    ensures Content(chunks[..k + 1]) == Content(chunks[..k]) + chunks[k]
  {
    assert chunks[..k + 1][..k] == chunks[..k];
  }

  lemma {:induction false} ContentFirst(chunks: seq<Bytes>, k: nat)
    requires 0 < k <= |chunks|
    ensures Content(chunks[..k]) == chunks[0] + Content(chunks[1..][..k - 1])
  {
    ContentLast(chunks, k - 1);
    if k == 1 {
      assert chunks[..0] == [] && chunks[1..][..0] == [];
      assert chunks[0] + [] == [] + chunks[0] == chunks[0];
    } else {
      ContentFirst(chunks, k - 1);
      ContentLast(chunks[1..], k - 2);
      assert chunks[1..][k - 2] == chunks[k - 1];
      Concat(chunks[0], Content(chunks[1..][..k - 2]), chunks[k - 1]);
    }
  }

  lemma LongerPrefix(start: Bytes, some: Bytes, all: Bytes, blob: Bytes)
    requires some <= all && start + all <= blob
    ensures start + some <= blob
  {
    assert start + some == (start + all)[..|start| + |some|];
  }

  // Receiving one more chunk after `start`.
  lemma ContentStep(start: Bytes, chunks: seq<Bytes>, k: nat, blob: Bytes)
    requires k < |chunks|
    ensures (start + Content(chunks[..k])) + chunks[k] == start + Content(chunks[..k + 1])
    ensures start + Content(chunks) <= blob ==> start + Content(chunks[..k + 1]) <= blob
  {
    ContentLast(chunks, k);
    Concat(start, Content(chunks[..k]), chunks[k]);
    ContentGrows(chunks, k + 1);
    if start + Content(chunks) <= blob {
      LongerPrefix(start, Content(chunks[..k + 1]), Content(chunks), blob);
    }
  }

  lemma ResumePrefix(had: Bytes, more: Bytes, blob: Bytes)
    requires had <= blob && more <= blob[|had|..]
    ensures had + more <= blob
  {
    assert had + more == blob[..|had| + |more|];
  }
}
