/**
 * `GET` and `DELETE /api/user/usage-history`: query-string clamping,
 * pagination flags and the mapping of library failures to HTTP statuses.
 * A JavaScript number is `Option<int>` here, `None` standing for `NaN`.
 */
module UsageHistoryRoute {
  import opened Wrappers
  import opened Text
  import opened Store
  import opened UsageHistory

  const MaxLimit := 100
  const Unauthorized := "Unauthorized: Please login to view usage history"
  const UnauthorizedDelete := "Unauthorized: Please login to delete usage history"
  const GetFailed := "Failed to get usage history"
  const InvalidJson := "Invalid JSON in request body"
  const InvalidRecord := "Invalid or missing record_id"
  const InternalError := "Internal server error"
  const DeleteFailed := "Failed to delete usage history record"

  function Min(a: int, b: int): int { if a < b then a else b }
  function Max(a: int, b: int): int { if a < b then b else a }

  /** `limitStr ? Math.min(Math.max(parseInt(limitStr), 1), 100) : 20`. */
  function ClampLimit(limitStr: Option<string>): (r: Option<int>)
    ensures !Truthy(limitStr) ==> r == Some(DefaultLimit)
    ensures Truthy(limitStr) && ParseInt(limitStr.value).None? ==> r.None?
    ensures Truthy(limitStr) && ParseInt(limitStr.value).Some? ==>
      r.Some? && 1 <= r.value <= MaxLimit &&
      (1 <= ParseInt(limitStr.value).value <= MaxLimit ==> r.value == ParseInt(limitStr.value).value) &&
      (ParseInt(limitStr.value).value < 1 ==> r.value == 1) &&
      (ParseInt(limitStr.value).value > MaxLimit ==> r.value == MaxLimit)
  {
    if !Truthy(limitStr) then Some(DefaultLimit)
    else
      var n := ParseInt(limitStr.value);
      if n.None? then None else Some(Min(Max(n.value, 1), MaxLimit))
  }

  /** `offsetStr ? Math.max(parseInt(offsetStr), 0) : 0`. */
  function ClampOffset(offsetStr: Option<string>): (r: Option<int>)
    ensures !Truthy(offsetStr) ==> r == Some(0)
    ensures Truthy(offsetStr) && ParseInt(offsetStr.value).None? ==> r.None?
    ensures Truthy(offsetStr) && ParseInt(offsetStr.value).Some? ==>
      r.Some? && r.value >= 0 && (r.value == 0 || r.value == ParseInt(offsetStr.value).value) &&
      r.value >= ParseInt(offsetStr.value).value
  {
    if !Truthy(offsetStr) then Some(0)
    else
      var n := ParseInt(offsetStr.value);
      if n.None? then None else Some(Max(n.value, 0))
  }

  /** A limit written as a decimal numeral in range is taken as written. */
  lemma LimitNumeralKept(n: nat)
    requires 1 <= n <= MaxLimit
    ensures ClampLimit(Some(NatToString(n))) == Some(n)
  {
    ParseIntNatToString(n);
  }

  /** `(total || 0) > offset + limit`, false whenever either side is `NaN`. */
  function HasMore(total: int, offset: Option<int>, limit: Option<int>): (r: bool)
    ensures r <==> offset.Some? && limit.Some? && total > offset.value + limit.value
  {
    offset.Some? && limit.Some? && total > offset.value + limit.value
  }

  datatype Pagination = Pagination(limit: Option<int>, offset: Option<int>, total: int, hasMore: bool)
  datatype GetReply = GetReply(status: int, data: seq<UsageRecord>, pagination: Option<Pagination>, error: Option<string>)

  /**
   * The library call the handler makes. `NaN` fails `limit > 0` exactly as 0
   * does, so it is passed on as 0 (no range). A `NaN` offset under a numeric
   * limit makes the ranged query unusable; the store's answer to it is the
   * failure `badRange`.
   */
  function LibraryPage(history: seq<UsageRecord>, clerk: string, limit: Option<int>, offset: Option<int>,
                       fault: Fault, countFault: Fault, badRange: StoreError): (r: HistoryPage)
    requires clerk != ""
    ensures offset.Some? && fault.Some? ==> !r.success
    ensures limit.None? ==> (r.success <==> fault.None?)
    ensures limit.None? && r.success ==> r.data == Listing(history, clerk)
    ensures limit.Some? && limit.value > 0 && r.success ==> |r.data| <= limit.value
    ensures r.success ==> forall i :: 0 <= i < |r.data| ==> r.data[i] in Listing(history, clerk)
    ensures offset.Some? && offset.value >= 0 && limit.Some? && limit.value > 0 ==>
      r == GetUserUsageHistory(history, clerk, limit, offset.value, fault, countFault)
  {
    var lim := if limit.Some? then limit.value else 0;
    var all := Listing(history, clerk);
    if offset.None? && lim > 0 then GetUserUsageHistory(history, clerk, Some(lim), 0, Some(badRange), countFault)
    else GetUserUsageHistory(history, clerk, Some(lim), if offset.Some? && offset.value >= 0 then offset.value else 0,
                             fault, countFault)
  }

  /** `GET`: 401 without a principal, 500 on a failed query, otherwise the page and its flags. */
  function Get(history: seq<UsageRecord>, principal: Option<string>, limitStr: Option<string>, offsetStr: Option<string>,
               fault: Fault, countFault: Fault, badRange: StoreError): (r: GetReply)
    ensures r.status in {200, 401, 500}
    ensures r.status == 401 <==> !Truthy(principal)
    ensures r.status == 401 ==> r.error == Some(Unauthorized)
    ensures Truthy(principal) && fault.Some? && ClampOffset(offsetStr).Some? ==> r.status == 500
    ensures r.status == 200 ==>
      r.pagination.Some? && r.pagination.value.limit == ClampLimit(limitStr) &&
      r.pagination.value.offset == ClampOffset(offsetStr) &&
      (r.pagination.value.hasMore <==>
         ClampLimit(limitStr).Some? && ClampOffset(offsetStr).Some? &&
         r.pagination.value.total > ClampOffset(offsetStr).value + ClampLimit(limitStr).value)
    ensures r.status == 200 && ClampLimit(limitStr).Some? ==> |r.data| <= ClampLimit(limitStr).value
    ensures r.status == 200 && ClampLimit(limitStr).None? ==> r.data == Listing(history, principal.value)
    ensures r.status == 200 ==>
      forall i :: 0 <= i < |r.data| ==> r.data[i] in Listing(history, principal.value)
  {
    if !Truthy(principal) then GetReply(401, [], None, Some(Unauthorized))
    else
      var limit := ClampLimit(limitStr);
      var offset := ClampOffset(offsetStr);
      var page := LibraryPage(history, principal.value, limit, offset, fault, countFault, badRange);
      if !page.success then GetReply(500, [], None, Some(OrElse(page.error, GetFailed)))
      else
        GetReply(200, page.data, Some(Pagination(limit, offset, page.total, HasMore(page.total, offset, limit))), None)
  }

  /** `hasMore` tells exactly whether a further page would be non-empty. */
  lemma HasMoreMeansNextPage(history: seq<UsageRecord>, clerk: string, limitStr: Option<string>, offsetStr: Option<string>,
                             badRange: StoreError)
    requires clerk != ""
    requires ClampLimit(limitStr).Some? && ClampOffset(offsetStr).Some?
    ensures var r := Get(history, Some(clerk), limitStr, offsetStr, None, None, badRange);
      var next := GetUserUsageHistory(history, clerk, ClampLimit(limitStr),
                                      ClampOffset(offsetStr).value + ClampLimit(limitStr).value, None, None);
      r.status == 200 && (r.pagination.value.hasMore <==> |next.data| > 0)
  {
  }

  // ----- DELETE -----

  datatype DeleteReply = DeleteReply(status: int, error: Option<string>)

  /** The status for a failed delete: 404 when the message names a missing or foreign record. */
  function DeleteFailureStatus(error: Option<string>): (status: int)
    ensures status in {404, 500}
    ensures status == 404 <==> error.Some? && (Contains(error.value, "not found") || Contains(error.value, "permission denied"))
  {
    if error.Some? && (Contains(error.value, "not found") || Contains(error.value, "permission denied")) then 404 else 500
  }

  /** A missing or foreign record is reported as 404. */
  lemma NotFoundIs404()
    ensures DeleteFailureStatus(Some(NotFoundOrDenied)) == 404
  {
    var m := NotFoundOrDenied;
    assert m == "Record " + "not found" + " or permission denied";
    assert m[7..16] == "not found";
    ContainsAt(m, "not found", 7);
  }

  /** The `record_id` the handler accepts: a positive number. */
  function RecordId(body: Json): (r: Option<int>)
    ensures r.Some? ==> r.value > 0
    ensures r.Some? <==> body.JObj? && "record_id" in body.fields && body.fields["record_id"].JNum? &&
                         body.fields["record_id"].n > 0
  {
    if body.JObj? && "record_id" in body.fields && body.fields["record_id"].JNum? && body.fields["record_id"].n > 0
    then Some(body.fields["record_id"].n) else None
  }

  /**
   * `DELETE`. `body` is the parsed request body, `None` when it is not JSON;
   * destructuring a `null` body throws and is answered 500.
   */
  method Delete(db: Db, principal: Option<string>, body: Option<Json>, now: int, checkFault: Fault, updateFault: Fault)
    returns (r: DeleteReply)
    requires db.Valid()
    modifies db
    ensures db.Valid()
    ensures r.status in {200, 400, 401, 404, 500}
    ensures r.status == 401 <==> !Truthy(principal)
    ensures r.status == 401 ==> r.error == Some(UnauthorizedDelete)
    ensures Truthy(principal) && body.None? ==> r == DeleteReply(400, Some(InvalidJson))
    ensures Truthy(principal) && body == Some(JNull) ==> r == DeleteReply(500, Some(InternalError))
    ensures Truthy(principal) && body.Some? && body.value != JNull && RecordId(body.value).None? ==>
      r == DeleteReply(400, Some(InvalidRecord))
    ensures r.status == 200 <==>
      Truthy(principal) && body.Some? && RecordId(body.value).Some? && checkFault.None? && updateFault.None? &&
      Deletable(old(db.history), RecordId(body.value).value, principal.value)
    ensures r.status == 200 ==>
      db.State() == old(db.State()).(history := SoftDeleted(old(db.history), RecordId(body.value).value, now))
    ensures r.status != 200 ==> db.State() == old(db.State())
    ensures (Truthy(principal) && body.Some? && RecordId(body.value).Some? && checkFault.None? &&
             !Deletable(old(db.history), RecordId(body.value).value, principal.value)) ==> r.status == 404
  {
    if !Truthy(principal) {
      return DeleteReply(401, Some(UnauthorizedDelete));
    }
    if body.None? {
      return DeleteReply(400, Some(InvalidJson));
    }
    if body.value == JNull {
      return DeleteReply(500, Some(InternalError));
    }
    var recordId := RecordId(body.value);
    if recordId.None? {
      return DeleteReply(400, Some(InvalidRecord));
    }
    var success, error := DeleteUsageHistory(db, recordId.value, principal.value, now, checkFault, updateFault);
    if !success {
      NotFoundIs404();
      return DeleteReply(DeleteFailureStatus(error), Some(OrElse(error, DeleteFailed)));
    }
    r := DeleteReply(200, None);
  }
}
