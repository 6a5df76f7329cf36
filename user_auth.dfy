/** The authentication and authorisation middleware: the session gate, the
    role gate, logout, and the login rate limiter's settings. */
module UserAuth {
  import opened Common
  import opened UserModel

  /** The server-side session record of one client. Only the field the
      application reads and writes is modelled. */
  class Session {
    var userId: Option<string>

    constructor ()
      ensures userId == None
    {
      userId := None;
    }
  }

  /** What a middleware decides: call `next()`, or answer the request itself
      so that nothing after it runs. */
  datatype Gate = Next | Halt(reply: Reply)

  const UnauthorizedReply := Reply(401, "Unauthorized: Please log in to access this resource")
  const NotLoggedInReply := Reply(401, "Unauthorized: Please log in")
  const UserNotFoundReply := Reply(404, "User not found")
  const ForbiddenReply := Reply(403, "Forbidden: You do not have the required permissions")
  const TooManyAttemptsReply := Reply(429, "Too many login attempts, please try again later.")

  /** `loginRateLimiter`: at most 5 attempts in its 15-minute window (the
      window's bookkeeping is the limiter's own and is not modelled). */
  const MaxLoginAttempts := 5

  /** `isAuthenticated`: the request goes on exactly when the session
      carries a (truthy) user id. */
  function IsAuthenticated(sessionUserId: Option<string>): (g: Gate)
    ensures g.Next? <==> Truthy(sessionUserId)
    ensures g.Halt? ==> g.reply.status == 401 && g == Halt(UnauthorizedReply)
  {
    if Truthy(sessionUserId) then Next else Halt(UnauthorizedReply)
  }

  /** `authorizeRole(requiredRole)`: 401 without a session user, 404 when
      that user is no longer in the store, 403 when the stored role is not
      exactly the required one; the role is read from the store on every
      call. */
  function AuthorizeRole(requiredRole: string, sessionUserId: Option<string>, users: map<Id, User>): (g: Gate)
    ensures g.Next? <==>
      Truthy(sessionUserId) && sessionUserId.value in users
      && users[sessionUserId.value].role == requiredRole
    ensures !Truthy(sessionUserId) ==> g == Halt(NotLoggedInReply)
    ensures Truthy(sessionUserId) && sessionUserId.value !in users ==> g == Halt(UserNotFoundReply)
    ensures (Truthy(sessionUserId) && sessionUserId.value in users
             && users[sessionUserId.value].role != requiredRole) ==> g == Halt(ForbiddenReply)
  {
    if !Truthy(sessionUserId) then Halt(NotLoggedInReply)
    else if sessionUserId.value !in users then Halt(UserNotFoundReply)
    else if users[sessionUserId.value].role != requiredRole then Halt(ForbiddenReply)
    else Next
  }

  /** The rate limiter's decision for a login attempt, given how many
      attempts (this one included) the client has made in the current
      window: the sixth and later are refused. */
  function LoginRateLimit(attemptsInWindow: nat): (g: Gate)
    ensures g.Next? <==> attemptsInWindow <= MaxLoginAttempts
    ensures g.Halt? ==> g.reply.status == 429
  {
    if attemptsInWindow > MaxLoginAttempts then Halt(TooManyAttemptsReply) else Next
  }

  /** The role gate's decision depends on the store only through whether
      the session user is there and what role it holds. */
  lemma AuthorizeRoleReadsOnlyRole(requiredRole: string, sessionUserId: Option<string>, users: map<Id, User>, users': map<Id, User>)
    requires Truthy(sessionUserId)
    requires sessionUserId.value in users <==> sessionUserId.value in users'
    requires sessionUserId.value in users ==> users[sessionUserId.value].role == users'[sessionUserId.value].role
    ensures AuthorizeRole(requiredRole, sessionUserId, users) == AuthorizeRole(requiredRole, sessionUserId, users')
  {
  }

  /** Because the role is re-read on every request, a role change takes
      effect at the very next check: the user then passes the gate for the
      new role and fails it for any other. */
  lemma RoleChangeSeenAtNextCheck(users: map<Id, User>, id: Id, newRole: string, requiredRole: string)
    requires id in users && id != ""
    ensures AuthorizeRole(requiredRole, Some(id), users[id := users[id].(role := newRole)]).Next?
            <==> newRole == requiredRole
  {
  }

  /** A logged-in user passes the role gate for the role it holds. */
  lemma LoggedInUserHasOwnRole(users: map<Id, User>, id: Id)
    requires id in users && id != ""
    ensures IsAuthenticated(Some(id)) == Next
    ensures AuthorizeRole(users[id].role, Some(id), users) == Next
  {
  }

  /** `logoutUser`: destroy the session; if the session store reports a
      failure, answer 500 and the stored session stays as it was. */
  method LogoutUser(session: Session, destroyFails: bool) returns (reply: Reply)
    modifies session
    ensures destroyFails ==> reply == Reply(500, "Failed to log out") && session.userId == old(session.userId)
    ensures !destroyFails ==> reply == Reply(200, "Logged out successfully") && session.userId == None
  {
    if destroyFails {
      return Reply(500, "Failed to log out");
    }
    session.userId := None;
    reply := Reply(200, "Logged out successfully");
  }

  /** After a successful logout, a later request on the same session is
      refused by `isAuthenticated` with 401. */
  method LogoutThenRequest(session: Session) returns (g: Gate)
    modifies session
    ensures session.userId == None && IsAuthenticated(session.userId) == Halt(UnauthorizedReply)
    ensures g == Halt(UnauthorizedReply) && g.reply.status == 401
  {
    var reply := LogoutUser(session, false);
    g := IsAuthenticated(session.userId);
  }
}
