/**
  Properties of the category repository that relate several runs: outcomes of
  statements that are never issued cannot matter, repeated writes agree, and the
  field-preservation step of `update` is stable.
 */
module CategoryProperties {
  import opened JsObject
  import opened Gateway
  import opened Envelope
  import opened CategoryModel

  /** A failed page query ends the run: the count outcome is never consulted. */
  lemma PageFailureIgnoresCount(limit: Value, offset: Value, page: SelectOutcome, c1: SelectOutcome, c2: SelectOutcome)
    requires page.Failed?
    ensures GetListWithLimitOffset(limit, offset, page, c1) == GetListWithLimitOffset(limit, offset, page, c2)
    ensures CountAll !in GetListWithLimitOffset(limit, offset, page, c1).issued
  {
  }

  /** A rejected candidate ends the run: no insert is sent and its outcome is never consulted. */
  lemma RejectionIgnoresInsert(candidate: Object, verdict: Validation, q1: InsertOutcome, q2: InsertOutcome)
    requires verdict.Invalid?
    ensures Create(candidate, verdict, q1) == Create(candidate, verdict, q2)
    ensures Create(candidate, verdict, q1).issued == []
  {
  }

  /** A failed or empty read ends `update`: no write is sent and its outcome is never consulted. */
  lemma MissingRowIgnoresWrite(id: Value, incoming: Object, read: SelectOutcome, w1: WriteOutcome, w2: WriteOutcome)
    requires read.Failed? || read == Returned([])
    ensures Update(id, incoming, read, w1) == Update(id, incoming, read, w2)
    ensures Update(id, incoming, read, w1).issued == [SelectIllustration(id)]
  {
  }

  /**
    Setting a status twice on an existing row: every call that touches a row succeeds
    with the same envelope, however many rows the driver reports as affected. A repeated
    update with the same value reports a positive count only when the driver counts
    matched rows rather than changed rows (the MySQL client flag for found rows, which
    the Node.js driver sets by default); that is why the requires asks for it.
   */
  lemma UpdateStatusRepeatable(id: Value, status: Value, n: nat, m: nat)
    requires n > 0 && m > 0
    ensures UpdateStatus(id, status, Returned(n)).reply == UpdateStatus(id, status, Returned(m)).reply
    ensures UpdateStatus(id, status, Returned(n)).reply.env.success
    ensures UpdateStatus(id, status, Returned(n)).reply.env.data == Scalar(id)
  {
  }

  /**
    A driver error and a missing row always carry different `message` texts, but
    by `error` alone, the split `Observe` makes, they look alike when the driver's
    message is empty.
   */
  lemma EmptyDriverMessageLooksLikeNotFound(id: Value)
    ensures Observe(GetDetail(id, Failed("")).reply.env) == Observe(GetDetail(id, Returned([])).reply.env)
    ensures GetDetail(id, Failed("")).reply.env.message != GetDetail(id, Returned([])).reply.env.message
    ensures Delete(id, Failed("")).reply.env.message != Delete(id, Returned(0)).reply.env.message
  {
  }

  /** Patching a payload that was already patched against the same row changes nothing. */
  lemma {:induction false} PatchedIdempotent(incoming: Object, stored: Object)
    ensures Patched(Patched(incoming, stored), stored) == Patched(incoming, stored)
  {
    var once := Patched(incoming, stored);
    if !Truthy(Get(incoming, IllustrationKey)) && !Truthy(Get(once, IllustrationKey)) {
      PutPut(incoming, IllustrationKey, Get(stored, IllustrationKey), Get(stored, IllustrationKey));
    }
  }

  /**
    `update` writes the caller's payload unchanged exactly when it brings a truthy
    illustration or already holds the stored one.
   */
  lemma PatchedIsIdentity(incoming: Object, stored: Object)
    requires UniqueKeys(incoming)
    ensures Patched(incoming, stored) == incoming <==>
      || Truthy(Get(incoming, IllustrationKey))
      || (IllustrationKey in Keys(incoming) && Get(incoming, IllustrationKey) == Get(stored, IllustrationKey))
  {
    if !Truthy(Get(incoming, IllustrationKey)) {
      if IllustrationKey in Keys(incoming) && Get(incoming, IllustrationKey) == Get(stored, IllustrationKey) {
        PutSame(incoming, IllustrationKey);
      }
      if Patched(incoming, stored) == incoming {
        assert |Keys(Patched(incoming, stored))| == |Keys(incoming)|;
      }
    }
  }
}
