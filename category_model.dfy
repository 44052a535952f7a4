/**
  The category repository: one function per static method of `CategoryModel`.

  Each operation is a function of the outcomes the driver (and, for `create`, the
  validator) hands back. An operation that issues a second statement takes that
  statement's outcome as a parameter too; the `issued` part of its run says whether
  the statement was sent, so an outcome it never sent cannot influence the reply.
 */
module CategoryModel {
  import opened JsObject
  import opened Gateway
  import opened Envelope
  import opened Messages

  /** The column `update` preserves, and the column the count query returns. */
  const IllustrationKey := "illustration"
  const TotalCountKey := "totalCount"

  function Fail(data: Data, message: string, error: string, totalCount: Option<Value>): (e: Envelope) {
    Envelope(data, message, false, error, totalCount)
  }

  function Succeed(data: Data, message: string, totalCount: Option<Value>): (e: Envelope) {
    Envelope(data, message, true, "", totalCount)
  }

  /**
    The three-outcome report of a write statement by identifier: a driver error,
    no affected row, or success with the identifier as payload.
   */
  ghost predicate ReportsWrite(e: Envelope, id: Value, q: WriteOutcome, failed: string, missing: string, done: string) {
    && WellFormed(e)
    && e.totalCount == None
    && (e.success <==> q.Returned? && q.value != 0)
    && (q.Failed? ==> e == Fail(List([]), failed, q.message, None))
    && (q == Returned(0) ==> e == Fail(List([]), missing, "", None) && Observe(e) == NotFound)
    && (e.success ==> e.data == Scalar(id) && e.message == done)
    && (q.Failed? && q.message != "" ==> Observe(e) == DriverError)
  }

  /** The envelope a write step builds from `result.affectedRows`. */
  function WriteReport(id: Value, q: WriteOutcome, failed: string, missing: string, done: string): (e: Envelope)
    requires missing != InvalidData && failed != InvalidData
    ensures ReportsWrite(e, id, q, failed, missing, done)
  {
    match q
    case Failed(message) => Fail(List([]), failed, message, None)
    case Returned(affected) =>
      if affected == 0 then Fail(List([]), missing, "", None)
      else Succeed(Scalar(id), done, None)
  }

  /** `getList`: every row, counted by the length of the row list. */
  function GetList(q: SelectOutcome): (r: Run)
    ensures r.issued == [SelectAll]
    ensures r.reply.Callback? && WellFormed(r.reply.env)
    ensures r.reply.env.success <==> q.Returned?
    ensures q.Failed? ==> r.reply.env == Fail(List([]), ListFailed, q.message, Some(Num(0)))
    ensures q.Failed? && q.message != "" ==> Observe(r.reply.env) == DriverError
    ensures q.Returned? ==>
      && r.reply.env.data == List(q.value)
      && r.reply.env.totalCount == Some(Num(|q.value|))
      && r.reply.env.message == ListFetched
  {
    var e := match q
      case Failed(message) => Fail(List([]), ListFailed, message, Some(Num(0)))
      case Returned(rows) => Succeed(List(rows), ListFetched, Some(Num(|rows|)));
    Run(Callback(e), [SelectAll])
  }

  /** `getDetail`: the first row selected by identifier; no rows is "not found", not a driver error. */
  function GetDetail(id: Value, q: SelectOutcome): (r: Run)
    ensures r.issued == [SelectById(id)]
    ensures r.reply.Callback? && WellFormed(r.reply.env) && r.reply.env.totalCount == None
    ensures r.reply.env.success <==> q.Returned? && |q.value| > 0
    ensures q.Failed? ==> r.reply.env == Fail(Record([]), DetailFailed, q.message, None)
    ensures q.Failed? && q.message != "" ==> Observe(r.reply.env) == DriverError
    ensures q == Returned([]) ==>
      r.reply.env == Fail(Record([]), CategoryNotFound, "", None) && Observe(r.reply.env) == NotFound
    ensures r.reply.env.success ==>
      r.reply.env.data == Record(q.value[0]) && r.reply.env.message == DetailFetched
  {
    var e := match q
      case Failed(message) => Fail(Record([]), DetailFailed, message, None)
      case Returned(rows) =>
        if |rows| == 0 then Fail(Record([]), CategoryNotFound, "", None)
        else Succeed(Record(rows[0]), DetailFetched, None);
    Run(Callback(e), [SelectById(id)])
  }

  /**
    `getListWithLimitOffset`: the page query, then, only if it succeeded, the count
    query. A failed count discards the page rows. The total is read from the first
    count row's `totalCount` property; with no count row at all the driver callback
    throws.
   */
  function GetListWithLimitOffset(limit: Value, offset: Value, page: SelectOutcome, count: SelectOutcome): (r: Run)
    ensures r.issued == [SelectPage(limit, offset)] + (if page.Returned? then [CountAll] else [])
    ensures r.reply.TypeError? <==> page.Returned? && count.Returned? && |count.value| == 0
    ensures r.reply.Callback? ==> WellFormed(r.reply.env)
    ensures r.reply.Callback? ==> (r.reply.env.success <==> page.Returned? && count.Returned?)
    ensures page.Failed? ==>
      r.reply == Callback(Fail(List([]), ListFailed, page.message, Some(Num(0))))
    ensures page.Returned? && count.Failed? ==>
      r.reply == Callback(Fail(List([]), CountFailed, count.message, Some(Num(0))))
    ensures r.reply.Callback? && (page.Failed? || count.Failed?) ==> Observe(r.reply.env) != Applied
    ensures page.Returned? && count.Returned? && |count.value| > 0 ==>
      && r.reply.Callback?
      && r.reply.env.data == List(page.value)
      && r.reply.env.totalCount == Some(Get(count.value[0], TotalCountKey))
      && r.reply.env.message == ListFetched
  {
    match page
    case Failed(message) =>
      Run(Callback(Fail(List([]), ListFailed, message, Some(Num(0)))), [SelectPage(limit, offset)])
    case Returned(rows) =>
      var issued := [SelectPage(limit, offset), CountAll];
      match count
      case Failed(message) => Run(Callback(Fail(List([]), CountFailed, message, Some(Num(0)))), issued)
      case Returned(countRows) =>
        if |countRows| == 0 then Run(TypeError, issued)
        else Run(Callback(Succeed(List(rows), ListFetched, Some(Get(countRows[0], TotalCountKey)))), issued)
  }

  /**
    `create`: the candidate is validated first and inserted only when valid. A
    rejection reports the first detail's message; with no detail at all reading it
    throws. A successful insert reports the generated identifier.
   */
  function Create(candidate: Object, verdict: Validation, q: InsertOutcome): (r: Run)
    ensures r.issued == if verdict.Valid? then [Insert(candidate)] else []
    ensures r.reply.TypeError? <==> verdict == Invalid([])
    ensures r.reply.Callback? ==> WellFormed(r.reply.env) && r.reply.env.totalCount == None
    ensures r.reply.Callback? ==> (r.reply.env.success <==> verdict.Valid? && q.Returned?)
    ensures verdict.Invalid? && |verdict.details| > 0 ==>
      && r.reply == Callback(Fail(List([]), InvalidData, verdict.details[0], None))
      && Observe(r.reply.env) == ValidationFailure
    ensures verdict.Valid? && q.Failed? ==> r.reply == Callback(Fail(List([]), InsertFailed, q.message, None))
    ensures verdict.Valid? && q.Failed? && q.message != "" ==> Observe(r.reply.env) == DriverError
    ensures verdict.Valid? && q.Returned? ==>
      r.reply.env.data == Scalar(Num(q.value)) && r.reply.env.message == Inserted
  {
    match verdict
    case Invalid(details) =>
      if |details| == 0 then Run(TypeError, [])
      else Run(Callback(Fail(List([]), InvalidData, details[0], None)), [])
    case Valid =>
      var e := match q
        case Failed(message) => Fail(List([]), InsertFailed, message, None)
        case Returned(insertId) => Succeed(Scalar(Num(insertId)), Inserted, None);
      Run(Callback(e), [Insert(candidate)])
  }

  /**
    The field-preservation step of `update`: a falsy incoming illustration is
    replaced by the stored one, and nothing else in the payload changes.
   */
  function Patched(incoming: Object, stored: Object): (r: Object)
    ensures Truthy(Get(incoming, IllustrationKey)) ==> r == incoming
    ensures !Truthy(Get(incoming, IllustrationKey)) ==> Get(r, IllustrationKey) == Get(stored, IllustrationKey)
    ensures forall k :: k != IllustrationKey ==> Get(r, k) == Get(incoming, k)
    ensures Keys(r) == if IllustrationKey in Keys(incoming) then Keys(incoming) else Keys(incoming) + [IllustrationKey]
    ensures Truthy(Get(r, IllustrationKey)) <==>
      Truthy(Get(incoming, IllustrationKey)) || Truthy(Get(stored, IllustrationKey))
    ensures UniqueKeys(incoming) ==> UniqueKeys(r)
  {
    if Truthy(Get(incoming, IllustrationKey)) then incoming
    else
      var r := Put(incoming, IllustrationKey, Get(stored, IllustrationKey));
      assert UniqueKeys(incoming) ==> UniqueKeys(r) by {
        if UniqueKeys(incoming) { PutKeepsUniqueKeys(incoming, IllustrationKey, Get(stored, IllustrationKey)); }
      }
      r
  }

  /**
    `update`, on a snapshot of the payload: read the stored illustration, and only
    if a row came back, write the patched payload and report the write.
   */
  function Update(id: Value, incoming: Object, read: SelectOutcome, write: WriteOutcome): (r: Run)
    ensures r.issued == [SelectIllustration(id)] +
      (if read.Returned? && |read.value| > 0 then [UpdateRow(Patched(incoming, read.value[0]), id)] else [])
    ensures r.reply.Callback? && WellFormed(r.reply.env) && r.reply.env.totalCount == None
    ensures r.reply.env.success <==> read.Returned? && |read.value| > 0 && write.Returned? && write.value != 0
    ensures read.Failed? ==> r.reply.env == Fail(List([]), DetailFailed, read.message, None)
    ensures read.Failed? && read.message != "" ==> Observe(r.reply.env) == DriverError
    ensures read == Returned([]) ==>
      r.reply.env == Fail(List([]), CategoryNotFound, "", None) && Observe(r.reply.env) == NotFound
    ensures read.Returned? && |read.value| > 0 ==>
      ReportsWrite(r.reply.env, id, write, UpdateFailed, UpdateTargetMissing, Updated)
  {
    match read
    case Failed(message) => Run(Callback(Fail(List([]), DetailFailed, message, None)), [SelectIllustration(id)])
    case Returned(rows) =>
      if |rows| == 0 then Run(Callback(Fail(List([]), CategoryNotFound, "", None)), [SelectIllustration(id)])
      else
        var written := Patched(incoming, rows[0]);
        Run(Callback(WriteReport(id, write, UpdateFailed, UpdateTargetMissing, Updated)),
            [SelectIllustration(id), UpdateRow(written, id)])
  }

  /** The caller's payload object, which `update` patches in place before writing it. */
  class Payload {
    var props: Object

    constructor (props: Object)
      ensures this.props == props
    {
      this.props := props;
    }

    /** Keep the stored illustration when the payload brings none. */
    method PreserveIllustration(stored: Object)
      modifies this
      ensures props == Patched(old(props), stored)
    {
      if !Truthy(Get(props, IllustrationKey)) {
        props := Put(props, IllustrationKey, Get(stored, IllustrationKey));
      }
    }
  }

  /**
    `update` as the source runs it: the caller's payload object is patched in place
    once the read has found the row, whatever the write then does.
   */
  method ApplyUpdate(id: Value, payload: Payload, read: SelectOutcome, write: WriteOutcome) returns (r: Run)
    modifies payload
    ensures r == Update(id, old(payload.props), read, write)
    ensures payload.props ==
      if read.Returned? && |read.value| > 0 then Patched(old(payload.props), read.value[0]) else old(payload.props)
  {
    if read.Failed? {
      return Run(Callback(Fail(List([]), DetailFailed, read.message, None)), [SelectIllustration(id)]);
    }
    var rows := read.value;
    if |rows| == 0 {
      return Run(Callback(Fail(List([]), CategoryNotFound, "", None)), [SelectIllustration(id)]);
    }
    payload.PreserveIllustration(rows[0]);
    var reply := Callback(WriteReport(id, write, UpdateFailed, UpdateTargetMissing, Updated));
    r := Run(reply, [SelectIllustration(id), UpdateRow(payload.props, id)]);
  }

  /** `delete`: remove the row by identifier. */
  function Delete(id: Value, q: WriteOutcome): (r: Run)
    ensures r.issued == [DeleteById(id)]
    ensures r.reply.Callback? && ReportsWrite(r.reply.env, id, q, DeleteFailed, DeleteTargetMissing, Deleted)
  {
    Run(Callback(WriteReport(id, q, DeleteFailed, DeleteTargetMissing, Deleted)), [DeleteById(id)])
  }

  /** `updateStatus`: set the status column of the row by identifier. */
  function UpdateStatus(id: Value, status: Value, q: WriteOutcome): (r: Run)
    ensures r.issued == [SetStatus(status, id)]
    ensures r.reply.Callback? && ReportsWrite(r.reply.env, id, q, StatusFailed, FlagTargetMissing, StatusUpdated)
  {
    Run(Callback(WriteReport(id, q, StatusFailed, FlagTargetMissing, StatusUpdated)), [SetStatus(status, id)])
  }

  /** `updateTrash`: set the soft-delete flag of the row by identifier. */
  function UpdateTrash(id: Value, trash: Value, q: WriteOutcome): (r: Run)
    ensures r.issued == [SetTrash(trash, id)]
    ensures r.reply.Callback? && ReportsWrite(r.reply.env, id, q, TrashFailed, FlagTargetMissing, TrashUpdated)
  {
    Run(Callback(WriteReport(id, q, TrashFailed, FlagTargetMissing, TrashUpdated)), [SetTrash(trash, id)])
  }

  /** A filtered list: the matching rows and no `totalCount` property. */
  function FilteredList(q: SelectOutcome, failed: string, fetched: string): (e: Envelope) {
    match q
    case Failed(message) => Fail(List([]), failed, message, None)
    case Returned(rows) => Succeed(List(rows), fetched, None)
  }

  /** `getListByStatus`: the rows with the given status, without a count. */
  function GetListByStatus(status: Value, q: SelectOutcome): (r: Run)
    ensures r.issued == [SelectByStatus(status)]
    ensures r.reply.Callback? && WellFormed(r.reply.env) && r.reply.env.totalCount == None
    ensures r.reply.env.success <==> q.Returned?
    ensures q.Failed? ==> r.reply.env == Fail(List([]), ByStatusFailed, q.message, None)
    ensures q.Failed? && q.message != "" ==> Observe(r.reply.env) == DriverError
    ensures q.Returned? ==> r.reply.env.data == List(q.value) && r.reply.env.message == ByStatusFetched
  {
    Run(Callback(FilteredList(q, ByStatusFailed, ByStatusFetched)), [SelectByStatus(status)])
  }

  /** `getListByTrash`: the rows with the given soft-delete flag, without a count. */
  function GetListByTrash(trash: Value, q: SelectOutcome): (r: Run)
    ensures r.issued == [SelectByTrash(trash)]
    ensures r.reply.Callback? && WellFormed(r.reply.env) && r.reply.env.totalCount == None
    ensures r.reply.env.success <==> q.Returned?
    ensures q.Failed? ==> r.reply.env == Fail(List([]), ByTrashFailed, q.message, None)
    ensures q.Failed? && q.message != "" ==> Observe(r.reply.env) == DriverError
    ensures q.Returned? ==> r.reply.env.data == List(q.value) && r.reply.env.message == ByTrashFetched
  {
    Run(Callback(FilteredList(q, ByTrashFailed, ByTrashFetched)), [SelectByTrash(trash)])
  }
}
