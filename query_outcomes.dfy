/** What the generic repository returns once its ORM calls have run. The
    ORM itself is not modelled: each call is represented by what the code
    inspects afterwards, an error and a count of affected rows. After a
    read, the error inspected is the one `result.DB()` reports (whether a
    database handle could be obtained), not the query's own error. */
module QueryOutcomes {
  import opened Basics
  import Validation

  /** The fields of a finished ORM call the repository looks at. */
  datatype QueryResult = QueryResult(error: Option<Error>, rowsAffected: Int64)

  /** A Go `(T, error)` result pair. */
  datatype Returned<T> = Returned(value: T, err: Option<Error>)

  /** A delete's `(int64, error)` result pair. */
  datatype Deleted = Deleted(count: Int64, err: Option<Error>)

  const NotPatched: Error := Error("not patched")
  const NotUpdated: Error := Error("not updated")
  const RecordNotFound: Error := Error("record not found")

  function NoRecordFoundWithId(id: string): Error {
    Error("no record found with id: " + id)
  }

  // ---------------------------------------------------------------------
  // Reads

  /** `GetOneByModelPropertiesCheckIdPresence`: `row` is what `First`
      scanned, `queryErr` the error of `result.DB()` after it, `idText`
      the string reflection gives for the row's `Id` field. The row is
      handed back in every case. */
  function GetOneByModelPropertiesCheckIdPresence<T>(row: T, queryErr: Option<Error>, idText: string)
    : (r: Returned<T>)
    ensures r.value == row
    ensures r.err.None? <==> queryErr.None? && idText != ""
    ensures queryErr.None? && idText == "" ==> r.err == Some(RecordNotFound)
  {
    if queryErr.Some? then Returned(row, queryErr)
    else if idText == "" then Returned(row, Some(RecordNotFound))
    else Returned(row, None)
  }

  // ---------------------------------------------------------------------
  // Updates

  /** `PatchById`: `fetchErr` is the error the preceding `GetOneById`
      returns (that of its `result.DB()`), `update` the error and row count
      that the whole `Update(...).Scan(&one)` chain leaves, `patched` the
      record `one` after that chain, `zero` the zero value of the record
      type. The second test
      of the fetch error in the Go code can never fire and is omitted. */
  function PatchById<T>(zero: T, fetchErr: Option<Error>, update: QueryResult, patched: T)
    : (r: Returned<T>)
    ensures r.err.None? <==> fetchErr.None? && update.error.None? && update.rowsAffected != 0
    ensures r.value == if r.err.None? then patched else zero
    ensures fetchErr.Some? ==> r.err == fetchErr
  {
    if fetchErr.Some? then Returned(zero, fetchErr)
    else if update.error.Some? then Returned(zero, update.error)
    else if update.rowsAffected == 0 then Returned(zero, Some(NotPatched))
    else Returned(patched, None)
  }

  /** `UpdateById`: as `PatchById`, with the structure copy of the
      incoming record onto the fetched one (`decodeErr`) in between;
      `update` is the error and row count that the whole
      `Updates(&one).Scan(&one)` chain leaves, and `merged` the record
      `one` after that chain. */
  function UpdateById<T>(zero: T, fetchErr: Option<Error>, decodeErr: Option<Error>,
                         update: QueryResult, merged: T)
    : (r: Returned<T>)
    ensures r.err.None? <==>
      fetchErr.None? && decodeErr.None? && update.error.None? && update.rowsAffected != 0
    ensures r.value == if r.err.None? then merged else zero
    ensures fetchErr.Some? ==> r.err == fetchErr
    ensures fetchErr.None? && decodeErr.Some? ==> r.err == decodeErr
  {
    if fetchErr.Some? then Returned(zero, fetchErr)
    else if decodeErr.Some? then Returned(zero, decodeErr)
    else if update.error.Some? then Returned(zero, update.error)
    else if update.rowsAffected == 0 then Returned(zero, Some(NotUpdated))
    else Returned(merged, None)
  }

  // ---------------------------------------------------------------------
  // Deletes

  /** The checks after the delete call itself, shared by the three delete
      variants: the error first, then the row count. The count test
      returns `del.error`, which is nil at that point. */
  function AfterDelete(del: QueryResult): (r: Deleted)
    ensures r.count >= 0
    ensures r.count > 0 <==> del.error.None? && del.rowsAffected > 0
    ensures r.count > 0 ==> r.count == del.rowsAffected
    ensures r.err == del.error
  {
    if del.error.Some? then Deleted(0, del.error)
    else if del.rowsAffected <= 0 then Deleted(0, del.error)
    else Deleted(del.rowsAffected, None)
  }

  /** `DeleteHardById`: fetch, structure copy, delete. */
  function DeleteHardById(fetchErr: Option<Error>, decodeErr: Option<Error>, del: QueryResult)
    : (r: Deleted)
    ensures r.count >= 0
    ensures r.count > 0 <==>
      fetchErr.None? && decodeErr.None? && del.error.None? && del.rowsAffected > 0
    ensures r.count > 0 ==> r.count == del.rowsAffected && r.err.None?
    ensures fetchErr.Some? ==> r == Deleted(0, fetchErr)
    ensures fetchErr.None? && decodeErr.Some? ==> r == Deleted(0, decodeErr)
  {
    if fetchErr.Some? then Deleted(0, fetchErr)
    else if decodeErr.Some? then Deleted(0, decodeErr)
    else AfterDelete(del)
  }

  /** The common logic of `DeleteSoftById` and `DeletePermanentById`:
      `fetchedId` is the record's `$.id` as `IsNullOrEmpty` sees it; an
      empty id stops before anything is deleted. */
  function DeleteFetched(id: string, fetchErr: Option<Error>, fetchedId: Validation.Printed,
                         decodeErr: Option<Error>, del: QueryResult)
    : (r: Deleted)
    ensures r.count >= 0
    ensures r.count > 0 <==>
      fetchErr.None? && !Validation.IsNullOrEmpty(fetchedId) && decodeErr.None? &&
      del.error.None? && del.rowsAffected > 0
    ensures r.count > 0 ==> r.count == del.rowsAffected && r.err.None?
    ensures fetchErr.Some? ==> r == Deleted(0, fetchErr)
    ensures fetchErr.None? && !Validation.IsNullOrEmpty(fetchedId) && decodeErr.Some? ==>
      r == Deleted(0, decodeErr)
  {
    if fetchErr.Some? then Deleted(0, fetchErr)
    else if Validation.IsNullOrEmpty(fetchedId) then Deleted(0, Some(NoRecordFoundWithId(id)))
    else if decodeErr.Some? then Deleted(0, decodeErr)
    else AfterDelete(del)
  }

  /** `DeleteSoftById`: the record is fetched with the logical-delete
      filter and deleted logically. */
  function DeleteSoftById(id: string, fetchErr: Option<Error>, fetchedId: Validation.Printed,
                          decodeErr: Option<Error>, del: QueryResult)
    : (r: Deleted)
    ensures Validation.IsNullOrEmpty(fetchedId) && fetchErr.None? ==>
      r == Deleted(0, Some(NoRecordFoundWithId(id)))
    ensures r.count > 0 ==> r.count == del.rowsAffected && r.err.None?
  {
    DeleteFetched(id, fetchErr, fetchedId, decodeErr, del)
  }

  /** `DeletePermanentById`: the record is fetched including logically
      deleted rows and removed for good; the outcome rules are those of
      the soft variant. */
  function DeletePermanentById(id: string, fetchErr: Option<Error>, fetchedId: Validation.Printed,
                               decodeErr: Option<Error>, del: QueryResult)
    : (r: Deleted)
    ensures Validation.IsNullOrEmpty(fetchedId) && fetchErr.None? ==>
      r == Deleted(0, Some(NoRecordFoundWithId(id)))
    ensures r.count > 0 ==> r.count == del.rowsAffected && r.err.None?
  {
    DeleteFetched(id, fetchErr, fetchedId, decodeErr, del)
  }

  // ---------------------------------------------------------------------
  // Properties

  /** An update error wins over the row count and is returned unchanged. */
  lemma UpdateErrorTakesPrecedence<T>(zero: T, e: Error, rows: Int64, patched: T)
    ensures PatchById(zero, None, QueryResult(Some(e), rows), patched) == Returned(zero, Some(e))
    ensures UpdateById(zero, None, None, QueryResult(Some(e), rows), patched) == Returned(zero, Some(e))
  {
  }

  /** An update that touches no row is reported as `not patched` or
      `not updated`, with the zero value. */
  lemma ZeroRowsIsNotApplied<T>(zero: T, patched: T)
    ensures PatchById(zero, None, QueryResult(None, 0), patched) == Returned(zero, Some(NotPatched))
    ensures UpdateById(zero, None, None, QueryResult(None, 0), patched) == Returned(zero, Some(NotUpdated))
  {
  }

  /** Patching and updating decide success alike: they differ only in the
      structure copy that updating does first and in the message. */
  lemma PatchAndUpdateAgree<T>(zero: T, fetchErr: Option<Error>, update: QueryResult, record: T)
    ensures var p, u := PatchById(zero, fetchErr, update, record),
                        UpdateById(zero, fetchErr, None, update, record);
      && p.value == u.value
      && (p.err.None? <==> u.err.None?)
      && (fetchErr.Some? || update.error.Some? ==> p.err == u.err)
  {
  }

  /** A delete that raises no error but removes no row is reported with
      count 0 and no error, the same pair as nothing at all going wrong
      with nothing to delete: the caller cannot tell it from success. */
  lemma DeleteOfNothingReportsNoError(rows: Int64, id: string, fetchedId: Validation.Printed)
    requires rows <= 0
    requires !Validation.IsNullOrEmpty(fetchedId)
    ensures DeleteHardById(None, None, QueryResult(None, rows)) == Deleted(0, None)
    ensures DeleteSoftById(id, None, fetchedId, None, QueryResult(None, rows)) == Deleted(0, None)
    ensures DeletePermanentById(id, None, fetchedId, None, QueryResult(None, rows)) == Deleted(0, None)
  {
  }

  /** A count of 0 comes with an error exactly when some step failed or
      the id check stopped the delete. */
  lemma ZeroCountErrorIff(id: string, fetchErr: Option<Error>, fetchedId: Validation.Printed,
                          decodeErr: Option<Error>, del: QueryResult)
    ensures var r := DeleteFetched(id, fetchErr, fetchedId, decodeErr, del);
      r.err.Some? <==>
        fetchErr.Some? || Validation.IsNullOrEmpty(fetchedId) || decodeErr.Some? || del.error.Some?
  {
  }

  /** An empty fetched id decides the outcome before the delete: neither
      the structure copy nor the delete call can change it. */
  lemma EmptyIdIgnoresDelete(id: string, fetchedId: Validation.Printed,
                             decode1: Option<Error>, del1: QueryResult,
                             decode2: Option<Error>, del2: QueryResult)
    requires Validation.IsNullOrEmpty(fetchedId)
    ensures DeleteSoftById(id, None, fetchedId, decode1, del1) ==
            DeleteSoftById(id, None, fetchedId, decode2, del2)
    ensures DeletePermanentById(id, None, fetchedId, decode1, del1) ==
            DeletePermanentById(id, None, fetchedId, decode2, del2)
  {
  }

  /** A record whose id could not be looked up at all (a nil lookup
      result) is reported as not found. */
  lemma MissingIdIsNotFound(id: string, text: string, decodeErr: Option<Error>, del: QueryResult)
    ensures DeleteSoftById(id, None, Validation.Printed(true, text), decodeErr, del).err ==
      Some(Error("no record found with id: " + id))
    ensures DeletePermanentById(id, None, Validation.Printed(true, text), decodeErr, del).err ==
      Some(Error("no record found with id: " + id))
  {
    Validation.NilIsEmpty(text);
  }

  /** The id check of the property lookup rejects exactly the empty id
      string, and never replaces a query error. */
  lemma PropertyLookupIdCheck<T>(row: T, queryErr: Option<Error>, idText: string)
    ensures queryErr.Some? ==> GetOneByModelPropertiesCheckIdPresence(row, queryErr, idText).err == queryErr
    ensures queryErr.None? ==>
      (GetOneByModelPropertiesCheckIdPresence(row, queryErr, idText).err == Some(RecordNotFound) <==> idText == "")
  {
  }
}
