/**
 * `POST /api/clerk/webhook`: Clerk's user lifecycle events keep the
 * `user_credits` account in step with the identity provider. Svix
 * signature verification and JSON parsing are inputs (booleans saying
 * whether they succeeded); the handlers are modelled on the store.
 */
module ClerkWebhook {
  import opened Wrappers
  import opened Text
  import opened Seqs
  import opened Store

  const NoEmail := "No email found"
  const CreateFailed := "Failed to create user"
  const UpdateFailed := "Failed to update user"
  const DeleteFailed := "Failed to delete user"
  const UserExists := "User already exists"
  const UserNotFound := "User not found"
  const SoftDeleted := "User soft-deleted successfully"
  const ConfigError := "Server configuration error"
  const MissingHeaders := "Missing required headers"
  const InvalidSignature := "Invalid signature"
  const ProcessingFailed := "Failed to process webhook"

  const UserCreated := "user.created"
  const UserUpdated := "user.updated"
  const UserDeleted := "user.deleted"

  /** The `data` of a user event; `emails` lists `email_addresses[*].email_address`. */
  datatype ClerkUserData = ClerkUserData(
    id: string,
    emails: seq<Option<string>>,
    firstName: Option<string>,
    lastName: Option<string>,
    username: Option<string>)

  datatype WebhookResult = WebhookResult(
    success: bool,
    message: Option<string>,
    error: Option<string>,
    userId: Option<int>,
    idempotent: bool)

  function Failed(error: string): WebhookResult {
    WebhookResult(false, None, Some(error), None, false)
  }

  /** `data.email_addresses?.[0]?.email_address`. */
  function PrimaryEmail(data: ClerkUserData): Option<string> {
    if |data.emails| == 0 then None else data.emails[0]
  }

  /**
   * `first || last ? [first, last].filter(Boolean).join(' ') : username || null`.
   */
  function DisplayName(first: Option<string>, last: Option<string>, username: Option<string>): (r: Option<string>)
    ensures Truthy(first) && Truthy(last) ==> r == Some(first.value + " " + last.value)
    ensures Truthy(first) && !Truthy(last) ==> r == first
    ensures !Truthy(first) && Truthy(last) ==> r == last
    ensures !Truthy(first) && !Truthy(last) ==> r == (if Truthy(username) then username else None)
    ensures r.Some? ==> r.value != ""
  {
    if Truthy(first) || Truthy(last) then
      var names := [first.GetOr(""), last.GetOr("")];
      var nonEmpty := (n: string) => n != "";
      var parts := Filter(names, nonEmpty);
      assert names[1..] == [last.GetOr("")] && names[1..][1..] == [];
      assert Filter(names[1..], nonEmpty) == if Truthy(last) then [last.value] else [];
      assert parts == if Truthy(first) then [first.value] + Filter(names[1..], nonEmpty) else Filter(names[1..], nonEmpty);
      assert Truthy(first) && Truthy(last) ==> Join(parts, " ") == first.value + " " + Join(parts[1..], " ");
      Some(Join(parts, " "))
    else if Truthy(username) then username
    else None
  }

  /** The display name of an event's user. */
  function NameOf(data: ClerkUserData): Option<string> {
    DisplayName(data.firstName, data.lastName, data.username)
  }

  /** The account holding a Clerk id is the one at its position: ids are unique. */
  lemma FindByUniqueClerk(users: seq<Account>, i: nat)
    requires UsersValid(users) && i < |users|
    ensures FindUserByClerk(users, users[i].clerkUserId) == Some(users[i])
  {
    var r := FindUserByClerk(users, users[i].clerkUserId);
    var j :| 0 <= j < |users| && users[j] == r.value;
  }

  /** The account of `clerk` exists and carries `email`. */
  predicate HasAccount(users: seq<Account>, clerk: string, email: string) {
    FindUserByClerk(users, clerk).Some? && FindUserByClerk(users, clerk).value.email == email
  }

  /**
   * `handleUserCreated`: an account with balance 0; a unique violation means
   * the account is already there and counts as success.
   */
  method HandleUserCreated(db: Db, data: ClerkUserData, fault: Fault) returns (r: WebhookResult)
    requires db.Valid()
    modifies db
    ensures db.Valid()
    ensures db.State() == old(db.State()).(users := db.users)
    ensures !Truthy(PrimaryEmail(data)) ==> r == Failed(NoEmail) && db.users == old(db.users)
    ensures r.success <==>
      Truthy(PrimaryEmail(data)) &&
      ((fault.None?) || fault.value.code == UniqueViolationCode)
    ensures !r.success ==> db.users == old(db.users)
    ensures Truthy(PrimaryEmail(data)) && fault.Some? && fault.value.code != UniqueViolationCode ==>
      r == Failed(CreateFailed)
    ensures Truthy(PrimaryEmail(data)) && fault.None? && FindUserByClerk(old(db.users), data.id).None? ==>
      r == WebhookResult(true, None, None, Some(|old(db.users)| + 1), false) &&
      db.users == old(db.users) + [Account(|old(db.users)| + 1, data.id, PrimaryEmail(data).value, NameOf(data), 0, None, None)]
    ensures Truthy(PrimaryEmail(data)) && fault.None? && FindUserByClerk(old(db.users), data.id).Some? ==>
      r == WebhookResult(true, Some(UserExists), None, None, true) && db.users == old(db.users)
    ensures r.success && fault.None? ==> FindUserByClerk(db.users, data.id).Some?
  {
    var email := PrimaryEmail(data);
    if !Truthy(email) {
      return Failed(NoEmail);
    }
    var ins := db.InsertUser(data.id, email.value, NameOf(data), fault);
    if ins.Failure? {
      if ins.error.code == UniqueViolationCode {
        return WebhookResult(true, Some(UserExists), None, None, true);
      }
      return Failed(CreateFailed);
    }
    ghost var after := db.users;
    assert after[|after| - 1].clerkUserId == data.id;
    r := WebhookResult(true, None, None, Some(ins.value), false);
  }

  /**
   * `handleUserUpdated` as written: a plain update, whose "not found" fallback
   * to creation only runs on a `PGRST116` error. A plain update reports zero
   * matching rows as success, so only a store fault carrying that code takes it.
   */
  method HandleUserUpdated(db: Db, data: ClerkUserData, updateFault: Fault, createFault: Fault)
    returns (r: WebhookResult)
    requires db.Valid()
    modifies db
    ensures db.Valid()
    ensures db.State() == old(db.State()).(users := db.users)
    ensures !Truthy(PrimaryEmail(data)) ==> r == Failed(NoEmail) && db.users == old(db.users)
    ensures Truthy(PrimaryEmail(data)) && updateFault.None? ==>
      r == WebhookResult(true, None, None, None, false) &&
      (FindUserByClerk(old(db.users), data.id).None? ==> db.users == old(db.users)) &&
      (FindUserByClerk(old(db.users), data.id).Some? ==>
         var a := FindUserByClerk(old(db.users), data.id).value;
         db.users == old(db.users)[a.userId - 1 := a.(email := PrimaryEmail(data).value, displayName := NameOf(data))])
    ensures Truthy(PrimaryEmail(data)) && updateFault.Some? && updateFault.value.code != NotFoundCode ==>
      r == Failed(UpdateFailed) && db.users == old(db.users)
  {
    var email := PrimaryEmail(data);
    if !Truthy(email) {
      return Failed(NoEmail);
    }
    var err := db.UpdateUserProfile(data.id, email.value, NameOf(data), updateFault);
    if err.Some? {
      if err.value.code == NotFoundCode {
        r := HandleUserCreated(db, data, createFault);
        return;
      }
      return Failed(UpdateFailed);
    }
    r := WebhookResult(true, None, None, None, false);
  }

  /**
   * A `user.updated` event for a user whose account is missing is answered
   * with 200 and creates nothing: the creation fallback never runs.
   */
  method UpdatedUserNeverCreated() returns (status: int, accounts: nat)
    ensures status == 200 && accounts == 0
  {
    var db := new Db();
    var data := ClerkUserData("user_1", [Some("a@example.com")], Some("Ada"), None, None);
    var error;
    status, error := ClerkPost(db, Some("whsec_test"), Some("msg_1"), Some("1700000000"), Some("v1,sig"), true, true,
                               ClerkEvent(UserUpdated, data), 0, ClerkFaults(None, None, None, None));
    accounts := |db.users|;
  }

  /**
   * `handleUserUpdated` with the update returning its row
   * (`.select('user_id').single()`), so a missing account is a `PGRST116`
   * error and falls back to creation. A successful update leaves the account
   * present with the new email, unless a unique violation reports a
   * concurrent creation.
   */
  method HandleUserUpdatedCorrected(db: Db, data: ClerkUserData, updateFault: Fault, createFault: Fault)
    returns (r: WebhookResult)
    requires db.Valid()
    modifies db
    ensures db.Valid()
    ensures db.State() == old(db.State()).(users := db.users)
    ensures !Truthy(PrimaryEmail(data)) ==> r == Failed(NoEmail) && db.users == old(db.users)
    ensures r.success && updateFault.None? ==>
      PrimaryEmail(data).Some? &&
      (HasAccount(db.users, data.id, PrimaryEmail(data).value) ||
       (createFault.Some? && createFault.value.code == UniqueViolationCode))
    ensures Truthy(PrimaryEmail(data)) && updateFault.None? && createFault.None? ==>
      r.success && HasAccount(db.users, data.id, PrimaryEmail(data).value)
    ensures Truthy(PrimaryEmail(data)) && updateFault.None? && FindUserByClerk(old(db.users), data.id).Some? ==>
      var a := FindUserByClerk(old(db.users), data.id).value;
      r.success &&
      db.users == old(db.users)[a.userId - 1 := a.(email := PrimaryEmail(data).value, displayName := NameOf(data))]
    ensures Truthy(PrimaryEmail(data)) && updateFault.Some? && updateFault.value.code != NotFoundCode ==>
      r == Failed(UpdateFailed) && db.users == old(db.users)
  {
    var email := PrimaryEmail(data);
    if !Truthy(email) {
      return Failed(NoEmail);
    }
    var upd := db.UpdateUserProfileSingle(data.id, email.value, NameOf(data), updateFault);
    if upd.Failure? {
      if upd.error.code == NotFoundCode {
        r := HandleUserCreated(db, data, createFault);
        if r.success && createFault.None? {
          ghost var after := db.users;
          FindByUniqueClerk(after, |after| - 1);
        }
        return;
      }
      return Failed(UpdateFailed);
    }
    ghost var a := FindUserByClerk(old(db.users), data.id).value;
    FindByUniqueClerk(db.users, a.userId - 1);
    r := WebhookResult(true, None, None, None, false);
  }

  /**
   * `handleUserDeleted`: a soft delete that stamps `deleted_at` and keeps the
   * row and its balance; a missing account is idempotent success.
   */
  method HandleUserDeleted(db: Db, data: ClerkUserData, now: int, fault: Fault) returns (r: WebhookResult)
    requires db.Valid()
    modifies db
    ensures db.Valid()
    ensures db.State() == old(db.State()).(users := db.users)
    ensures r.success <==> fault.None? || fault.value.code == NotFoundCode
    ensures !r.success ==> r == Failed(DeleteFailed) && db.users == old(db.users)
    ensures fault.None? && FindUserByClerk(old(db.users), data.id).None? ==>
      r == WebhookResult(true, Some(UserNotFound), None, None, true) && db.users == old(db.users)
    ensures fault.None? && FindUserByClerk(old(db.users), data.id).Some? ==>
      var a := FindUserByClerk(old(db.users), data.id).value;
      r == WebhookResult(true, Some(SoftDeleted), None, None, false) &&
      db.users == old(db.users)[a.userId - 1 := a.(deletedAt := Some(now))]
    ensures |db.users| == |old(db.users)|
    ensures forall i :: 0 <= i < |db.users| ==>
      db.users[i].balance == old(db.users)[i].balance && db.users[i].clerkUserId == old(db.users)[i].clerkUserId
  {
    var del := db.MarkUserDeleted(data.id, now, fault);
    if del.Failure? {
      if del.error.code == NotFoundCode {
        return WebhookResult(true, Some(UserNotFound), None, None, true);
      }
      return Failed(DeleteFailed);
    }
    r := WebhookResult(true, Some(SoftDeleted), None, None, false);
  }

  /** A verified Clerk event. */
  datatype ClerkEvent = ClerkEvent(kind: string, data: ClerkUserData)

  /** The store faults of the handlers, one per store call. */
  datatype ClerkFaults = ClerkFaults(record: Fault, create: Fault, update: Fault, delete: Fault)

  /** The configuration, header, payload and signature checks all pass. */
  predicate Admitted(secret: Option<string>, svixId: Option<string>, svixTimestamp: Option<string>,
                     svixSignature: Option<string>, payloadParses: bool, signatureValid: bool) {
    Truthy(secret) && Truthy(svixId) && Truthy(svixTimestamp) && Truthy(svixSignature) && payloadParses && signatureValid
  }

  /**
   * `POST`: configuration, header and signature checks, an audit row whose
   * failure is ignored, then the handler for the event type. A failed handler
   * answers 500 so that Clerk retries. A 200 for `user.updated` does not
   * mean the account exists: a missing one is neither updated nor created.
   */
  method ClerkPost(db: Db, secret: Option<string>, svixId: Option<string>, svixTimestamp: Option<string>,
                   svixSignature: Option<string>, payloadParses: bool, signatureValid: bool,
                   event: ClerkEvent, now: int, faults: ClerkFaults)
    returns (status: int, error: Option<string>)
    requires db.Valid()
    modifies db
    ensures db.Valid()
    ensures status in {200, 400, 500}
    ensures !Truthy(secret) ==> status == 500 && error == Some(ConfigError) && db.State() == old(db.State())
    ensures Truthy(secret) && !(Truthy(svixId) && Truthy(svixTimestamp) && Truthy(svixSignature)) ==>
      status == 400 && error == Some(MissingHeaders) && db.State() == old(db.State())
    ensures Truthy(secret) && Truthy(svixId) && Truthy(svixTimestamp) && Truthy(svixSignature) && !payloadParses ==>
      status == 500 && error == Some(ProcessingFailed) && db.State() == old(db.State())
    ensures Truthy(secret) && Truthy(svixId) && Truthy(svixTimestamp) && Truthy(svixSignature) && payloadParses &&
            !signatureValid ==>
      status == 400 && error == Some(InvalidSignature) && db.State() == old(db.State())
    ensures status == 200 ==> error.None?
    ensures (Admitted(secret, svixId, svixTimestamp, svixSignature, payloadParses, signatureValid) &&
             event.kind !in {UserCreated, UserUpdated, UserDeleted}) ==>
      status == 200 && db.users == old(db.users)
    ensures Admitted(secret, svixId, svixTimestamp, svixSignature, payloadParses, signatureValid) &&
            event.kind == UserUpdated && Truthy(PrimaryEmail(event.data)) && faults.update.None? ==>
      status == 200 &&
      (old(FindUserByClerk(db.users, event.data.id)).None? ==> db.users == old(db.users)) &&
      (old(FindUserByClerk(db.users, event.data.id)).Some? ==>
         var a := old(FindUserByClerk(db.users, event.data.id)).value;
         db.users == old(db.users)[a.userId - 1 := a.(email := PrimaryEmail(event.data).value,
                                                     displayName := NameOf(event.data))])
    ensures status == 200 && event.kind == UserCreated && faults.create.None? ==>
      FindUserByClerk(db.users, event.data.id).Some?
    ensures db.State() == old(db.State()).(users := db.users, clerkEvents := db.clerkEvents)
    ensures db.clerkEvents == old(db.clerkEvents) ||
            db.clerkEvents == old(db.clerkEvents) +
              [ClerkEventRow(svixId.value, event.kind, if event.data.id != "" then Some(event.data.id) else None)]
  {
    if !Truthy(secret) {
      return 500, Some(ConfigError);
    }
    if !Truthy(svixId) || !Truthy(svixTimestamp) || !Truthy(svixSignature) {
      return 400, Some(MissingHeaders);
    }
    if !payloadParses {
      return 500, Some(ProcessingFailed);
    }
    if !signatureValid {
      return 400, Some(InvalidSignature);
    }
    var row := ClerkEventRow(svixId.value, event.kind, if event.data.id != "" then Some(event.data.id) else None);
    var _ := db.RecordClerkEvent(row, faults.record);
    var result: WebhookResult;
    if event.kind == UserCreated {
      result := HandleUserCreated(db, event.data, faults.create);
    } else if event.kind == UserUpdated {
      result := HandleUserUpdated(db, event.data, faults.update, faults.create);
    } else if event.kind == UserDeleted {
      result := HandleUserDeleted(db, event.data, now, faults.delete);
    } else {
      return 200, None;
    }
    if !result.success {
      return 500, result.error;
    }
    status, error := 200, None;
  }

  /**
   * `POST` with `user.updated` running the corrected handler: a 200 for an
   * updated user then means the account exists with the new email.
   */
  method ClerkPostCorrected(db: Db, secret: Option<string>, svixId: Option<string>, svixTimestamp: Option<string>,
                            svixSignature: Option<string>, payloadParses: bool, signatureValid: bool,
                            event: ClerkEvent, now: int, faults: ClerkFaults)
    returns (status: int, error: Option<string>)
    requires db.Valid()
    modifies db
    ensures db.Valid()
    ensures status in {200, 400, 500}
    ensures !Truthy(secret) ==> status == 500 && error == Some(ConfigError) && db.State() == old(db.State())
    ensures Truthy(secret) && !(Truthy(svixId) && Truthy(svixTimestamp) && Truthy(svixSignature)) ==>
      status == 400 && error == Some(MissingHeaders) && db.State() == old(db.State())
    ensures Truthy(secret) && Truthy(svixId) && Truthy(svixTimestamp) && Truthy(svixSignature) && !payloadParses ==>
      status == 500 && error == Some(ProcessingFailed) && db.State() == old(db.State())
    ensures Truthy(secret) && Truthy(svixId) && Truthy(svixTimestamp) && Truthy(svixSignature) && payloadParses &&
            !signatureValid ==>
      status == 400 && error == Some(InvalidSignature) && db.State() == old(db.State())
    ensures status == 200 ==> error.None?
    ensures (Admitted(secret, svixId, svixTimestamp, svixSignature, payloadParses, signatureValid) &&
             event.kind !in {UserCreated, UserUpdated, UserDeleted}) ==>
      status == 200 && db.users == old(db.users)
    ensures status == 200 && event.kind == UserUpdated && faults.update.None? ==>
      PrimaryEmail(event.data).Some? &&
      (HasAccount(db.users, event.data.id, PrimaryEmail(event.data).value) ||
       (faults.create.Some? && faults.create.value.code == UniqueViolationCode))
    ensures status == 200 && event.kind == UserCreated && faults.create.None? ==>
      FindUserByClerk(db.users, event.data.id).Some?
    ensures db.State() == old(db.State()).(users := db.users, clerkEvents := db.clerkEvents)
    ensures db.clerkEvents == old(db.clerkEvents) ||
            db.clerkEvents == old(db.clerkEvents) +
              [ClerkEventRow(svixId.value, event.kind, if event.data.id != "" then Some(event.data.id) else None)]
  {
    if !Truthy(secret) {
      return 500, Some(ConfigError);
    }
    if !Truthy(svixId) || !Truthy(svixTimestamp) || !Truthy(svixSignature) {
      return 400, Some(MissingHeaders);
    }
    if !payloadParses {
      return 500, Some(ProcessingFailed);
    }
    if !signatureValid {
      return 400, Some(InvalidSignature);
    }
    var row := ClerkEventRow(svixId.value, event.kind, if event.data.id != "" then Some(event.data.id) else None);
    var _ := db.RecordClerkEvent(row, faults.record);
    var result: WebhookResult;
    if event.kind == UserCreated {
      result := HandleUserCreated(db, event.data, faults.create);
    } else if event.kind == UserUpdated {
      result := HandleUserUpdatedCorrected(db, event.data, faults.update, faults.create);
    } else if event.kind == UserDeleted {
      result := HandleUserDeleted(db, event.data, now, faults.delete);
    } else {
      return 200, None;
    }
    if !result.success {
      return 500, result.error;
    }
    status, error := 200, None;
  }
}
