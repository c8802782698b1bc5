/**
 * The record of generated narrations (`user_usage_history`): saving a
 * record, listing a signed-in user's active records newest first with
 * paging, looking a record up by request id and soft-deleting an owned
 * record. Rows are appended with serial ids, so "newest first by
 * `created_at`" is the reverse of insertion order.
 */
module UsageHistory {
  import opened Wrappers
  import opened Text
  import opened Seqs
  import opened Store

  const MaxPromptLength := 2000
  const DefaultLimit := 20

  const MissingFields := "imageUrl and aiNarration are required"
  const InvalidIdentity := "Invalid user identity: must be either registered or anonymous user"
  const PromptTooLong := "User prompt is too long (max 2000 characters)"
  const ClerkRequired := "clerkUserId is required"
  const InvalidRecordId := "Invalid record ID"
  const UserRequired := "User ID is required"
  const OwnershipCheckFailed := "Failed to verify record ownership"
  const NotFoundOrDenied := "Record not found or permission denied"

  /** The arguments of `saveUsageHistory`; `userId` is a number, falsy when 0. */
  datatype SaveParams = SaveParams(
    userId: Option<int>,
    clerkUserId: Option<string>,
    anonId: Option<string>,
    imageUrl: string,
    userPrompt: Option<string>,
    aiNarration: string,
    requestId: Option<string>)

  predicate TruthyNum(n: Option<int>) {
    n.Some? && n.value != 0
  }

  /** `x || null` on an optional number. */
  function NumOrNull(n: Option<int>): (r: Option<int>)
    ensures r.Some? <==> TruthyNum(n)
    ensures r.Some? ==> r == n
  {
    if TruthyNum(n) then n else None
  }

  /** `x || null` on an optional string. */
  function StrOrNull(s: Option<string>): (r: Option<string>)
    ensures r.Some? <==> Truthy(s)
    ensures r.Some? ==> r == s
  {
    if Truthy(s) then s else None
  }

  /** A signed-in user: both the account id and the Clerk id are present. */
  predicate Registered(p: SaveParams) {
    TruthyNum(p.userId) && Truthy(p.clerkUserId)
  }

  /** An anonymous visitor: an anonymous id and neither account id. */
  predicate AnonymousOnly(p: SaveParams) {
    Truthy(p.anonId) && !TruthyNum(p.userId) && !Truthy(p.clerkUserId)
  }

  /** The validation of `saveUsageHistory`: the first failed check's message. */
  function ValidateSave(p: SaveParams): (r: Option<string>)
    ensures r.None? <==>
      p.imageUrl != "" && p.aiNarration != "" && (Registered(p) || AnonymousOnly(p)) &&
      !(Truthy(p.userPrompt) && Utf16Length(p.userPrompt.value) > MaxPromptLength)
    ensures (p.imageUrl == "" || p.aiNarration == "") ==> r == Some(MissingFields)
    ensures r.Some? ==> r.value in {MissingFields, InvalidIdentity, PromptTooLong}
  {
    if p.imageUrl == "" || p.aiNarration == "" then Some(MissingFields)
    else if !Registered(p) && !AnonymousOnly(p) then Some(InvalidIdentity)
    else if Truthy(p.userPrompt) && Utf16Length(p.userPrompt.value) > MaxPromptLength then Some(PromptTooLong)
    else None
  }

  /** A prompt of exactly 2000 UTF-16 units is accepted, one of 2001 is not. */
  lemma PromptLimitBoundary(p: SaveParams)
    requires p.imageUrl != "" && p.aiNarration != "" && Registered(p)
    requires p.userPrompt.Some? && Utf16Length(p.userPrompt.value) in {MaxPromptLength, MaxPromptLength + 1}
    ensures ValidateSave(p).None? <==> Utf16Length(p.userPrompt.value) == MaxPromptLength
    ensures ValidateSave(p).Some? ==> ValidateSave(p) == Some(PromptTooLong)
  {
  }

  /**
   * The limit is on UTF-16 units, not characters: 1001 characters above
   * U+FFFF (emoji, say) already exceed it.
   */
  lemma PromptLimitCountsSurrogates(p: SaveParams)
    requires p.imageUrl != "" && p.aiNarration != "" && Registered(p)
    requires p.userPrompt.Some? && |p.userPrompt.value| == 1001
    requires forall i :: 0 <= i < |p.userPrompt.value| ==> p.userPrompt.value[i] > '\U{FFFF}'
    ensures ValidateSave(p) == Some(PromptTooLong)
  {
  }

  /** An identity is never both registered and anonymous; mixing them is refused unless both account ids are set. */
  lemma IdentityCases(p: SaveParams)
    ensures !(Registered(p) && AnonymousOnly(p))
    ensures (p.imageUrl != "" && p.aiNarration != "" && Truthy(p.anonId) && Truthy(p.clerkUserId) &&
             !TruthyNum(p.userId)) ==> ValidateSave(p) == Some(InvalidIdentity)
  {
  }

  /** The row inserted for valid parameters; falsy optional fields become null. */
  function HistoryRow(p: SaveParams, now: int): (r: UsageRecord)
    ensures r.userId == NumOrNull(p.userId) && r.clerkUserId == StrOrNull(p.clerkUserId)
    ensures r.anonId == StrOrNull(p.anonId) && r.userPrompt == StrOrNull(p.userPrompt)
    ensures r.requestId == StrOrNull(p.requestId)
    ensures r.imageUrl == p.imageUrl && r.aiNarration == p.aiNarration && r.status == Active
  {
    UsageRecord(0, NumOrNull(p.userId), StrOrNull(p.clerkUserId), StrOrNull(p.anonId), p.imageUrl,
                StrOrNull(p.userPrompt), p.aiNarration, StrOrNull(p.requestId), Active, now)
  }

  /** `saveUsageHistory`: validates, then inserts one row and returns its id. */
  method SaveUsageHistory(db: Db, p: SaveParams, now: int, fault: Fault)
    returns (success: bool, error: Option<string>, id: Option<int>)
    requires db.Valid()
    modifies db
    ensures db.Valid()
    ensures db.State() == old(db.State()).(history := db.history)
    ensures success <==> ValidateSave(p).None? && fault.None?
    ensures success <==> error.None?
    ensures ValidateSave(p).Some? ==> error == ValidateSave(p) && db.history == old(db.history)
    ensures ValidateSave(p).None? && fault.Some? ==> error == Some(fault.value.message) && db.history == old(db.history)
    ensures success ==>
      id == Some(|old(db.history)| + 1) &&
      db.history == old(db.history) + [HistoryRow(p, now).(id := |old(db.history)| + 1)]
    ensures !success ==> id.None?
  {
    var invalid := ValidateSave(p);
    if invalid.Some? {
      return false, invalid, None;
    }
    var r := db.InsertRecord(HistoryRow(p, now), fault);
    if r.Failure? {
      return false, Some(r.error.message), None;
    }
    success, error, id := true, None, Some(r.value.id);
  }

  // ----- listing -----

  /** The filter of the listing: the caller's, active, not anonymous. */
  predicate Visible(clerk: string, r: UsageRecord) {
    r.clerkUserId == Some(clerk) && r.status == Active && r.anonId.None?
  }

  /** All the caller's visible records, newest first. */
  function Listing(history: seq<UsageRecord>, clerk: string): seq<UsageRecord> {
    Reverse(Filter(history, r => Visible(clerk, r)))
  }

  /** Every listed record is visible, comes from the table, and the ids fall strictly: newest first. */
  lemma ListingSound(history: seq<UsageRecord>, clerk: string)
    requires HistoryValid(history)
    ensures forall i :: 0 <= i < |Listing(history, clerk)| ==>
      Visible(clerk, Listing(history, clerk)[i]) && Listing(history, clerk)[i] in history
    ensures forall i, j :: 0 <= i < j < |Listing(history, clerk)| ==>
      Listing(history, clerk)[i].id > Listing(history, clerk)[j].id
  {
    var f := Filter(history, r => Visible(clerk, r));
    FilterSorted(history, r => Visible(clerk, r), (r: UsageRecord) => r.id);
    var l := Listing(history, clerk);
    forall i | 0 <= i < |l| ensures Visible(clerk, l[i]) && l[i] in history {
      assert l[i] == f[|f| - 1 - i];
      assert f[|f| - 1 - i] in f;
    }
  }

  /** Every visible record of the caller is listed. */
  lemma ListingComplete(history: seq<UsageRecord>, clerk: string, r: UsageRecord)
    requires r in history && Visible(clerk, r)
    ensures r in Listing(history, clerk)
  {
    var f := Filter(history, x => Visible(clerk, x));
    FilterKeeps(history, x => Visible(clerk, x), r);
    var k :| 0 <= k < |f| && f[k] == r;
    assert Listing(history, clerk)[|f| - 1 - k] == r;
  }

  /** A newly saved record of a signed-in user heads that user's listing. */
  lemma SavedRecordListedFirst(history: seq<UsageRecord>, r: UsageRecord, clerk: string)
    requires Visible(clerk, r)
    ensures |Listing(history + [r], clerk)| == |Listing(history, clerk)| + 1
    ensures Listing(history + [r], clerk)[0] == r
  {
    FilterAppend(history, [r], x => Visible(clerk, x));
    assert Filter([r], x => Visible(clerk, x)) == [r];
  }

  datatype HistoryPage = HistoryPage(success: bool, data: seq<UsageRecord>, total: int, error: Option<string>)

  /**
   * `getUserUsageHistory`: the caller's listing, cut to
   * `[offset, offset + limit - 1]` when `limit > 0`; `total` counts the
   * same filter and reads 0 when its query fails.
   */
  function GetUserUsageHistory(history: seq<UsageRecord>, clerk: string, limit: Option<int>, offset: nat,
                               fault: Fault, countFault: Fault): (r: HistoryPage)
    ensures r.success <==> clerk != "" && fault.None?
    ensures clerk == "" ==> r.error == Some(ClerkRequired)
    ensures clerk != "" && fault.Some? ==> r.error == Some(fault.value.message)
    ensures r.success ==>
      r.error.None? && r.total == (if countFault.Some? then 0 else |Listing(history, clerk)|)
    ensures r.success && limit.GetOr(DefaultLimit) > 0 ==>
      |r.data| <= limit.GetOr(DefaultLimit) &&
      |r.data| == (if offset >= |Listing(history, clerk)| then 0
                   else if offset + limit.GetOr(DefaultLimit) < |Listing(history, clerk)| then limit.GetOr(DefaultLimit)
                   else |Listing(history, clerk)| - offset) &&
      forall i :: 0 <= i < |r.data| ==> r.data[i] == Listing(history, clerk)[offset + i]
    ensures r.success && limit.GetOr(DefaultLimit) <= 0 ==> r.data == Listing(history, clerk)
    ensures !r.success ==> r.data == []
  {
    if clerk == "" then HistoryPage(false, [], 0, Some(ClerkRequired))
    else if fault.Some? then HistoryPage(false, [], 0, Some(fault.value.message))
    else
      var all := Listing(history, clerk);
      var lim := limit.GetOr(DefaultLimit);
      var data := if lim > 0 then Window(all, offset, offset + lim - 1) else all;
      HistoryPage(true, data, if countFault.Some? then 0 else |all|, None)
  }

  /** Two consecutive pages together are the page of twice the size: paging skips and repeats nothing. */
  lemma ConsecutivePages(history: seq<UsageRecord>, clerk: string, offset: nat, limit: nat)
    requires clerk != "" && limit > 0
    ensures GetUserUsageHistory(history, clerk, Some(limit), offset, None, None).data +
            GetUserUsageHistory(history, clerk, Some(limit), offset + limit, None, None).data ==
            GetUserUsageHistory(history, clerk, Some(2 * limit), offset, None, None).data
  {
    WindowConcat(Listing(history, clerk), offset, limit, limit);
  }

  // ----- lookup by request id -----

  datatype ExistsReply = ExistsReply(found: bool, id: Option<int>)

  /**
   * `checkUsageHistoryExists`: `maybeSingle` over the rows with this request
   * id; an empty id, a failed query or more than one match read as absent.
   */
  function CheckUsageHistoryExists(history: seq<UsageRecord>, requestId: string, fault: Fault): (r: ExistsReply)
    ensures r.found <==> requestId != "" && fault.None? && Count(history, (h: UsageRecord) => h.requestId == Some(requestId)) == 1
    ensures r.found ==> r.id.Some? && exists h :: h in history && h.requestId == Some(requestId) && h.id == r.id.value
    ensures !r.found ==> r.id.None?
  {
    if requestId == "" || fault.Some? then ExistsReply(false, None)
    else
      var matches := Filter(history, (h: UsageRecord) => h.requestId == Some(requestId));
      if |matches| == 1 then
        assert matches[0] in matches;
        ExistsReply(true, Some(matches[0].id))
      else ExistsReply(false, None)
  }

  /** A record saved with a request id is found by it when no other record shares the id. */
  lemma SavedRequestFound(history: seq<UsageRecord>, r: UsageRecord)
    requires r.requestId.Some? && r.requestId.value != ""
    requires forall i :: 0 <= i < |history| ==> history[i].requestId != r.requestId
    ensures CheckUsageHistoryExists(history + [r], r.requestId.value, None) == ExistsReply(true, Some(r.id))
  {
    var p := (h: UsageRecord) => h.requestId == Some(r.requestId.value);
    FilterAppend(history, [r], p);
    FilterNone(history, p);
    assert Filter([r], p) == [r];
  }

  // ----- soft delete -----

  /** The owned, active record the delete's check query finds. */
  predicate Deletable(history: seq<UsageRecord>, id: int, clerk: string)
    requires HistoryValid(history)
  {
    FindRecord(history, id).Some? && FindRecord(history, id).value.clerkUserId == Some(clerk) &&
    FindRecord(history, id).value.status == Active
  }

  /** The table after the record is marked deleted. */
  function SoftDeleted(history: seq<UsageRecord>, id: int, now: int): (r: seq<UsageRecord>)
    requires 1 <= id <= |history|
    ensures |r| == |history|
    ensures forall k :: 0 <= k < |history| && k != id - 1 ==> r[k] == history[k]
  {
    history[id - 1 := history[id - 1].(status := Deleted, updatedAt := now)]
  }

  /**
   * `deleteUsageHistory`: validates the arguments, checks that the record is
   * the caller's and active, then marks it deleted.
   */
  method DeleteUsageHistory(db: Db, recordId: int, clerk: string, now: int, checkFault: Fault, updateFault: Fault)
    returns (success: bool, error: Option<string>)
    requires db.Valid()
    modifies db
    ensures db.Valid()
    ensures success <==> error.None?
    ensures success <==>
      recordId > 0 && clerk != "" && checkFault.None? && Deletable(old(db.history), recordId, clerk) &&
      updateFault.None?
    ensures !success ==> db.State() == old(db.State())
    ensures recordId <= 0 ==> error == Some(InvalidRecordId)
    ensures recordId > 0 && clerk == "" ==> error == Some(UserRequired)
    ensures recordId > 0 && clerk != "" && checkFault.Some? ==> error == Some(OwnershipCheckFailed)
    ensures recordId > 0 && clerk != "" && checkFault.None? && !Deletable(old(db.history), recordId, clerk) ==>
      error == Some(NotFoundOrDenied)
    ensures (recordId > 0 && clerk != "" && checkFault.None? && Deletable(old(db.history), recordId, clerk) &&
             updateFault.Some?) ==> error == Some(updateFault.value.message)
    ensures success ==>
      1 <= recordId <= |old(db.history)| &&
      db.State() == old(db.State()).(history := SoftDeleted(old(db.history), recordId, now))
  {
    if recordId <= 0 {
      return false, Some(InvalidRecordId);
    }
    if clerk == "" {
      return false, Some(UserRequired);
    }
    if checkFault.Some? {
      return false, Some(OwnershipCheckFailed);
    }
    if !Deletable(db.history, recordId, clerk) {
      return false, Some(NotFoundOrDenied);
    }
    var updateError := db.SoftDeleteRecord(recordId, clerk, now, updateFault);
    if updateError.Some? {
      return false, Some(updateError.value.message);
    }
    success, error := true, None;
  }

  /** A deleted record cannot be deleted again and leaves the owner's listing. */
  lemma DeleteIsFinal(history: seq<UsageRecord>, id: int, clerk: string, now: int)
    requires HistoryValid(history) && Deletable(history, id, clerk)
    ensures HistoryValid(SoftDeleted(history, id, now))
    ensures !Deletable(SoftDeleted(history, id, now), id, clerk)
    ensures forall r :: r in Listing(SoftDeleted(history, id, now), clerk) ==> r.id != id
  {
    var after := SoftDeleted(history, id, now);
    assert after[id - 1].status == Deleted;
    ListingSound(after, clerk);
    forall r | r in Listing(after, clerk) ensures r.id != id {
      var l := Listing(after, clerk);
      var i :| 0 <= i < |l| && l[i] == r;
      var k :| 0 <= k < |after| && after[k] == r;
    }
  }
}
