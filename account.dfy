/**
 * Choosing the account whose posts are purged: the user ID from the
 * configuration, or else the ID that a username lookup returns.
 */
module Account {
  import opened Wrappers

  /** A user record as the lookup returns it; only `id` is used downstream. */
  datatype User = User(id: string, name: string)

  /** What the platform's username lookup returns: a transport error, or a (possibly empty) user list. */
  datatype LookupResponse =
    | LookupError(message: string)
    | Users(users: seq<User>)

  /** Why no account could be chosen; each one ends the run. */
  datatype AccountError =
    | LookupFailed(message: string)     // the lookup call itself failed
    | NoUserFound(username: string)     // the lookup returned no user
    | NoAccountConfigured               // neither a user ID nor a username is set

  /**
   * The ID of the account named `username`, given the platform's answer to
   * the lookup of that one name: an error when the call failed or found no
   * user, otherwise the ID of the first user listed (whatever it is).
   */
  function GetUserID(response: LookupResponse, username: string): (r: Result<string, AccountError>)
    ensures r.Success? <==> response.Users? && |response.users| > 0
    ensures r.Success? ==> r.value == response.users[0].id
    ensures response.LookupError? ==> r == Failure(LookupFailed(response.message))
    ensures response.Users? && response.users == [] ==> r == Failure(NoUserFound(username))
  {
    match response
    case LookupError(message) => Failure(LookupFailed(message))
    case Users(users) =>
      if |users| == 0 then Failure(NoUserFound(username)) else Success(users[0].id)
  }

  /** True when choosing the account needs a call to the username lookup. */
  predicate NeedsLookup(userId: string, username: string): (r: bool)
    ensures r <==> |userId| == 0 && |username| > 0
  {
    userId == "" && username != ""
  }

  /**
   * The account chosen from the configured `userId` and `username` (each ""
   * when unset). `lookup` stands for the platform's username lookup; it is
   * consulted only when no user ID is configured and a username is.
   */
  function ResolveUserID(userId: string, username: string, lookup: string -> LookupResponse)
    : (r: Result<string, AccountError>)
    ensures userId != "" ==> r == Success(userId)
    ensures userId == "" && username == "" ==> r == Failure(NoAccountConfigured)
    ensures NeedsLookup(userId, username) ==> r == GetUserID(lookup(username), username)
  {
    if userId != "" then
      Success(userId)
    else if username == "" then
      Failure(NoAccountConfigured)
    else
      GetUserID(lookup(username), username)
  }

  /**
   * The chosen ID is the configured one or, when none is configured, the
   * first user that the lookup of the configured username returned.
   */
  lemma ResolvedIdOrigin(userId: string, username: string, lookup: string -> LookupResponse)
    requires ResolveUserID(userId, username, lookup).Success?
    ensures var id := ResolveUserID(userId, username, lookup).value;
      || (userId != "" && id == userId)
      || (NeedsLookup(userId, username) && lookup(username).Users? &&
          |lookup(username).users| > 0 && id == lookup(username).users[0].id)
  {
  }

  /**
   * Without a lookup the result does not depend on what the platform would
   * answer: two different lookup services give the same account.
   */
  lemma NoLookupNoDependence(userId: string, username: string,
                             lookup1: string -> LookupResponse, lookup2: string -> LookupResponse)
    requires !NeedsLookup(userId, username)
    ensures ResolveUserID(userId, username, lookup1) == ResolveUserID(userId, username, lookup2)
  {
  }

  /**
   * Choosing an account fails exactly when nothing is configured, or the
   * lookup of the configured username fails or finds no user.
   */
  lemma ResolveFailsIff(userId: string, username: string, lookup: string -> LookupResponse)
    ensures ResolveUserID(userId, username, lookup).Failure? <==>
      || (userId == "" && username == "")
      || (NeedsLookup(userId, username) &&
          (lookup(username).LookupError? || lookup(username).users == []))
  {
  }
}
