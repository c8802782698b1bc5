/**
 * `POST /api/user/ensure`: makes sure the signed-in user has a
 * `user_credits` account, as a fallback for a lost `user.created` webhook.
 * `raced` stands for another request creating the same account between
 * this handler's read and its insert.
 */
module UserEnsure {
  import opened Wrappers
  import opened Text
  import opened Store
  import opened ClerkWebhook

  const NotAuthenticated := "Not authenticated"
  const NoUserInfo := "Failed to get user information"
  const NoEmailAddress := "No email address found"
  const EnsureFailed := "Failed to ensure user exists"
  const AlreadyExists := "User already exists"
  const Created := "User created successfully"
  const ConcurrentCreation := "User exists (concurrent creation)"

  datatype EnsureReply = EnsureReply(status: int, userId: Option<int>, message: Option<string>, error: Option<string>)

  function Refused(status: int, error: string): EnsureReply {
    EnsureReply(status, None, None, Some(error))
  }

  /** The `user_id` of the principal's account, as `select('user_id').eq(...).single()` reads it. */
  function ReadUserId(users: seq<Account>, clerk: string, fault: Fault): (r: Option<int>)
    ensures r.Some? <==> fault.None? && FindUserByClerk(users, clerk).Some?
    ensures r.Some? ==> r.value == FindUserByClerk(users, clerk).value.userId
  {
    var read := Single(FindUserByClerk(users, clerk), fault);
    if read.Success? then Some(read.value.userId) else None
  }

  /**
   * The insert of a new account with `balance = 0`; a unique violation means
   * a concurrent creation, answered with the re-read account's id.
   */
  method CreateAccount(db: Db, clerk: string, email: string, name: Option<string>, raced: bool,
                       insertFault: Fault, rereadFault: Fault)
    returns (r: EnsureReply)
    requires db.Valid()
    modifies db
    ensures db.Valid()
    ensures db.State() == old(db.State()).(users := db.users)
    ensures old(db.users) <= db.users
    ensures r.status in {200, 500}
    ensures !raced && insertFault.None? && FindUserByClerk(old(db.users), clerk).None? ==>
      r == EnsureReply(200, Some(|old(db.users)| + 1), Some(Created), None) &&
      db.users == old(db.users) + [Account(|old(db.users)| + 1, clerk, email, name, 0, None, None)]
    ensures (raced || FindUserByClerk(old(db.users), clerk).Some?) && insertFault.None? ==>
      r.status == 200 && r.message == Some(ConcurrentCreation)
    ensures r.status == 200 ==> r.error.None?
    ensures r.status == 200 && rereadFault.None? && insertFault.None? ==>
      FindUserByClerk(db.users, clerk).Some? && r.userId == Some(FindUserByClerk(db.users, clerk).value.userId)
    ensures r.status != 200 ==> r == Refused(500, EnsureFailed) && (db.users == old(db.users) || raced)
  {
    if raced {
      var first := db.InsertUser(clerk, email, name, None);
      if first.Success? {
        FindByUniqueClerk(db.users, |db.users| - 1);
      }
    }
    var ins := db.InsertUser(clerk, email, name, insertFault);
    if ins.Failure? {
      if ins.error.code == UniqueViolationCode {
        var again := ReadUserId(db.users, clerk, rereadFault);
        return EnsureReply(200, again, Some(ConcurrentCreation), None);
      }
      return Refused(500, EnsureFailed);
    }
    FindByUniqueClerk(db.users, |db.users| - 1);
    r := EnsureReply(200, Some(ins.value), Some(Created), None);
  }

  method EnsurePost(db: Db, principal: Option<string>, user: Option<ClerkUserData>, readFault: Fault,
                    raced: bool, insertFault: Fault, rereadFault: Fault)
    returns (r: EnsureReply)
    requires db.Valid()
    modifies db
    ensures db.Valid()
    ensures db.State() == old(db.State()).(users := db.users)
    ensures r.status in {200, 400, 401, 500}
    ensures !Truthy(principal) ==> r == Refused(401, NotAuthenticated) && db.users == old(db.users)
    ensures Truthy(principal) && ReadUserId(old(db.users), principal.value, readFault).Some? ==>
      r == EnsureReply(200, ReadUserId(old(db.users), principal.value, readFault), Some(AlreadyExists), None) &&
      db.users == old(db.users)
    ensures Truthy(principal) && ReadUserId(old(db.users), principal.value, readFault).None? && user.None? ==>
      r == Refused(500, NoUserInfo) && db.users == old(db.users)
    ensures (Truthy(principal) && ReadUserId(old(db.users), principal.value, readFault).None? && user.Some? &&
             !Truthy(PrimaryEmail(user.value))) ==>
      r == Refused(400, NoEmailAddress) && db.users == old(db.users)
    ensures (Truthy(principal) && FindUserByClerk(old(db.users), principal.value).None? && user.Some? &&
             Truthy(PrimaryEmail(user.value)) && !raced && insertFault.None?) ==>
      r == EnsureReply(200, Some(|old(db.users)| + 1), Some(Created), None) &&
      db.users == old(db.users) + [Account(|old(db.users)| + 1, principal.value, PrimaryEmail(user.value).value,
                                           NameOf(user.value), 0, None, None)]
    ensures r.status == 200 && rereadFault.None? && insertFault.None? ==>
      FindUserByClerk(db.users, principal.value).Some? &&
      r.userId == Some(FindUserByClerk(db.users, principal.value).value.userId)
    ensures r.status == 200 ==> r.error.None?
    ensures old(db.users) <= db.users
    ensures r.status != 200 ==> db.users == old(db.users) || raced
  {
    if !Truthy(principal) {
      return Refused(401, NotAuthenticated);
    }
    var clerk := principal.value;
    var existing := ReadUserId(db.users, clerk, readFault);
    if existing.Some? {
      return EnsureReply(200, existing, Some(AlreadyExists), None);
    }
    if user.None? {
      return Refused(500, NoUserInfo);
    }
    var email := PrimaryEmail(user.value);
    var name := NameOf(user.value);
    if !Truthy(email) {
      return Refused(400, NoEmailAddress);
    }
    r := CreateAccount(db, clerk, email.value, name, raced, insertFault, rereadFault);
  }
}
