/** The user handlers: login, lookup, update, delete, password change, role
    assignment, creation and the paginated listing. Each one is a short
    chain of checks ending in one reply and at most one write to the user
    collection. */
module UserController {
  import opened Common
  import opened Store
  import opened UserModel
  import opened UserAuth

  const InvalidCredentialsReply := Reply(401, "Invalid email or password")
  const ServerErrorReply := Reply(500, "Server error")

  /** `findOne({ email })`: a user holding the email, if any. */
  function FindOneByEmail(users: map<Id, User>, order: seq<Id>, email: string): (r: Option<Id>)
    requires forall i :: 0 <= i < |order| ==> order[i] in users
    ensures r.Some? ==> r.value in order && r.value in users && users[r.value].email == email
    ensures r.None? ==> forall i :: 0 <= i < |order| ==> users[order[i]].email != email
  {
    if order == [] then None
    else if users[order[0]].email == email then Some(order[0])
    else
      FindOneByEmail(users, order[1..], email)
  }

  /** `loginUser`: an unknown email and a wrong password get the same 401
      and leave the session alone; a match stores the user's id in the
      session. */
  method LoginUser(users: Collection<User>, session: Session, email: string, password: string, h: Hasher)
    returns (reply: Reply, userId: Option<Id>)
    requires users.Valid() && UniqueEmails(users.docs)
    modifies session
    ensures reply.status == 200 <==>
      exists id :: id in users.docs && users.docs[id].email == email && Matches(h, password, users.docs[id].password)
    ensures reply.status == 200 ==>
      reply.message == "Login successful" && userId.Some? && session.userId == userId
      && userId.value in users.docs && users.docs[userId.value].email == email
    ensures reply.status != 200 ==>
      reply == InvalidCredentialsReply && userId == None && session.userId == old(session.userId)
  {
    var found := FindOneByEmail(users.docs, users.order, email);
    if found.None? {
      assert forall id :: id in users.docs ==> users.docs[id].email != email by {
        forall id | id in users.docs ensures users.docs[id].email != email {
          var k :| 0 <= k < |users.order| && users.order[k] == id;
        }
      }
      return InvalidCredentialsReply, None;
    }
    var id := found.value;
    if !Matches(h, password, users.docs[id].password) {
      return InvalidCredentialsReply, None;
    }
    session.userId := Some(id);
    reply, userId := Reply(200, "Login successful"), Some(id);
  }

  /** A successful login lets the next request through `isAuthenticated`
      and through the role gate for the user's own role; `ownRole` is that
      second gate, and there is none without a login. A failed login
      leaves the session, and so both gates, as they were. Store ids
      (ObjectIds) are never empty. */
  method LoginThenGates(users: Collection<User>, session: Session, email: string, password: string, h: Hasher)
    returns (login: Reply, authenticated: Gate, ownRole: Option<Gate>)
    requires users.Valid() && UniqueEmails(users.docs)
    requires forall id :: id in users.docs ==> id != ""
    modifies session
    ensures login.status == 200 ==>
      && session.userId.Some? && session.userId.value in users.docs
      && IsAuthenticated(session.userId) == Next
      && AuthorizeRole(users.docs[session.userId.value].role, session.userId, users.docs) == Next
    ensures login.status == 200 ==> authenticated == Next && ownRole == Some(Next)
    ensures login.status != 200 ==>
      session.userId == old(session.userId) && authenticated == IsAuthenticated(old(session.userId)) && ownRole == None
  {
    var who;
    login, who := LoginUser(users, session, email, password, h);
    authenticated := IsAuthenticated(session.userId);
    if login.status == 200 {
      LoggedInUserHasOwnRole(users.docs, who.value);
      ownRole := Some(AuthorizeRole(users.docs[who.value].role, session.userId, users.docs));
    } else {
      ownRole := None;
    }
  }

  /** `getUserById`: 404 for an unknown id; otherwise the user without its
      password. */
  function GetUserById(users: map<Id, User>, id: Id): (r: Result<UserView, Reply>)
    ensures r.Err? <==> id !in users
    ensures r.Err? ==> r.error == UserNotFoundReply
    ensures r.Ok? ==>
      r.value.password == None && r.value.id == id
      && r.value.username == users[id].username && r.value.email == users[id].email
      && r.value.role == users[id].role
      && r.value.permissions == users[id].permissions && r.value.status == users[id].status
  {
    if id in users then Ok(Redacted(id, users[id])) else Err(UserNotFoundReply)
  }

  /** The update `{ username, email, role }` with absent keys dropped: only
      these three fields can change. */
  function ProfileUpdate(u: User, username: Option<string>, email: Option<string>, role: Option<string>): (r: User)
    ensures r.password == u.password && r.permissions == u.permissions && r.status == u.status
    ensures username.Some? ==> r.username == username.value
    ensures username.None? ==> r.username == u.username
    ensures email.Some? ==> r.email == email.value
    ensures email.None? ==> r.email == u.email
    ensures role.Some? ==> r.role == role.value
    ensures role.None? ==> r.role == u.role
  {
    u.(username := username.GetOr(u.username), email := email.GetOr(u.email), role := role.GetOr(u.role))
  }

  /** `updateUser`: 400 when the request failed validation, before the
      store is touched; 404 for an unknown id; 500 when the unique email
      index refuses the new email; otherwise only username, email and role
      change, and the reply carries the user without its password. */
  method UpdateUser(users: Collection<User>, id: Id, username: Option<string>, email: Option<string>,
                    role: Option<string>, validationErrors: seq<string>)
    returns (reply: Reply, updated: Option<UserView>)
    requires users.Valid() && UniqueEmails(users.docs)
    modifies users
    ensures users.Valid() && UniqueEmails(users.docs) && users.order == old(users.order)
    ensures validationErrors != [] ==> reply.status == 400
    ensures validationErrors == [] && id !in old(users.docs) ==> reply == UserNotFoundReply
    ensures (validationErrors == [] && id in old(users.docs)
             && EmailTaken(old(users.docs), id, ProfileUpdate(old(users.docs[id]), username, email, role).email))
            ==> reply == ServerErrorReply
    ensures reply.status != 200 ==> users.docs == old(users.docs) && updated == None
    ensures reply.status == 200 ==>
      validationErrors == [] && id in old(users.docs)
      && users.docs == old(users.docs)[id := ProfileUpdate(old(users.docs[id]), username, email, role)]
      && updated == Some(Redacted(id, users.docs[id]))
    ensures (validationErrors == [] && id in old(users.docs)
             && !EmailTaken(old(users.docs), id, ProfileUpdate(old(users.docs[id]), username, email, role).email))
            ==> reply.status == 200
  {
    if validationErrors != [] {
      return Reply(400, ""), None;
    }
    if id !in users.docs {
      return UserNotFoundReply, None;
    }
    var u := ProfileUpdate(users.docs[id], username, email, role);
    if EmailTaken(users.docs, id, u.email) {
      return ServerErrorReply, None;
    }
    PutKeepsUniqueEmails(users.docs, id, u);
    users.Replace(id, u);
    reply, updated := Reply(200, "User updated successfully"), Some(Redacted(id, u));
  }

  /** `deleteUser`: 404 for an unknown id; otherwise exactly that user goes. */
  method DeleteUser(users: Collection<User>, id: Id) returns (reply: Reply)
    requires users.Valid() && UniqueEmails(users.docs)
    modifies users
    ensures users.Valid() && UniqueEmails(users.docs)
    ensures id !in old(users.docs) ==> reply == UserNotFoundReply && users.docs == old(users.docs)
    ensures id in old(users.docs) ==> reply == Reply(200, "User deleted successfully")
    ensures users.docs == old(users.docs) - {id} && users.order == Erase(old(users.order), id)
  {
    var removed := users.FindByIdAndDelete(id);
    if removed.None? {
      return UserNotFoundReply;
    }
    reply := Reply(200, "User deleted successfully");
  }

  /** A user's own email is never "taken" while emails are unique. */
  lemma OwnEmailNotTaken(users: map<Id, User>, id: Id)
    requires UniqueEmails(users) && id in users
    ensures !EmailTaken(users, id, users[id].email)
  {
  }

  const ForbiddenOwnPasswordReply := Reply(403, "Forbidden: You can only change your own password")

  /** `changePassword` as the source writes it: 403 whenever the session
      user is not the path id, before any lookup; 404 for an unknown id; 401
      for a wrong old password; then the handler hashes the new password
      and `save()` hashes it again, so the store holds h(h(new)). */
  method ChangePassword(users: Collection<User>, sessionUserId: Option<string>, id: Id,
                        oldPassword: string, newPassword: string, h: Hasher)
    returns (reply: Reply)
    requires users.Valid() && UniqueEmails(users.docs)
    modifies users
    ensures users.Valid() && UniqueEmails(users.docs) && users.order == old(users.order)
    ensures sessionUserId != Some(id) ==> reply == ForbiddenOwnPasswordReply
    ensures sessionUserId == Some(id) && id !in old(users.docs) ==> reply == UserNotFoundReply
    ensures (sessionUserId == Some(id) && id in old(users.docs)
             && !Matches(h, oldPassword, old(users.docs[id].password))) ==> reply == Reply(401, "Invalid old password")
    ensures reply.status != 200 ==> users.docs == old(users.docs)
    ensures reply.status == 200 <==>
      sessionUserId == Some(id) && id in old(users.docs)
      && Matches(h, oldPassword, old(users.docs[id].password))
      && RequiredPresent(old(users.docs[id]).(password := h(newPassword)))
    ensures reply.status == 200 ==>
      users.docs == old(users.docs)[id := old(users.docs[id]).(password := h(h(newPassword)))]
  {
    if sessionUserId != Some(id) {
      return ForbiddenOwnPasswordReply;
    }
    if id !in users.docs {
      return UserNotFoundReply;
    }
    var user := users.docs[id];
    if !Matches(h, oldPassword, user.password) {
      return Reply(401, "Invalid old password");
    }
    user := user.(password := h(newPassword));
    OwnEmailNotTaken(users.docs, id);
    var saved := Save(users, id, user, true, h);
    if saved.Err? {
      return ServerErrorReply;
    }
    reply := Reply(200, "Password updated successfully");
  }

  /** `changePassword` with the handler's own hashing taken out: the
      plaintext is assigned and the pre-save hook hashes it once. */
  method ChangePasswordCorrected(users: Collection<User>, sessionUserId: Option<string>, id: Id,
                                 oldPassword: string, newPassword: string, h: Hasher)
    returns (reply: Reply)
    requires users.Valid() && UniqueEmails(users.docs)
    modifies users
    ensures users.Valid() && UniqueEmails(users.docs) && users.order == old(users.order)
    ensures sessionUserId != Some(id) ==> reply == ForbiddenOwnPasswordReply
    ensures sessionUserId == Some(id) && id !in old(users.docs) ==> reply == UserNotFoundReply
    ensures (sessionUserId == Some(id) && id in old(users.docs)
             && !Matches(h, oldPassword, old(users.docs[id].password))) ==> reply == Reply(401, "Invalid old password")
    ensures reply.status != 200 ==> users.docs == old(users.docs)
    ensures reply.status == 200 <==>
      sessionUserId == Some(id) && id in old(users.docs)
      && Matches(h, oldPassword, old(users.docs[id].password))
      && RequiredPresent(old(users.docs[id]).(password := newPassword))
    ensures reply.status == 200 ==>
      users.docs == old(users.docs)[id := old(users.docs[id]).(password := h(newPassword))]
  {
    if sessionUserId != Some(id) {
      return ForbiddenOwnPasswordReply;
    }
    if id !in users.docs {
      return UserNotFoundReply;
    }
    var user := users.docs[id];
    if !Matches(h, oldPassword, user.password) {
      return Reply(401, "Invalid old password");
    }
    user := user.(password := newPassword);
    OwnEmailNotTaken(users.docs, id);
    var saved := Save(users, id, user, true, h);
    if saved.Err? {
      return ServerErrorReply;
    }
    reply := Reply(200, "Password updated successfully");
  }

  /** Once the stored password is h(h(p)), logging in with p fails for every
      hash function that is injective and never returns its own input. */
  lemma DoubleHashRejectsNewPassword(h: Hasher, p: string)
    requires Injective(h) && NoFixpoint(h)
    ensures !Matches(h, p, h(h(p)))
  {
    assert h(p) != p;
  }

  /** A concrete injective hash with no fixpoint: prepend "$". */
  function PrefixHash(p: string): string {
    "$" + p
  }

  lemma PrefixHashIsInjectiveWithoutFixpoint()
    ensures Injective(PrefixHash) && NoFixpoint(PrefixHash)
  {
    forall a, b | PrefixHash(a) == PrefixHash(b) ensures a == b {
      assert a == PrefixHash(a)[1..];
      assert b == PrefixHash(b)[1..];
    }
    forall p ensures PrefixHash(p) != p {
      assert |PrefixHash(p)| == |p| + 1;
    }
  }

  /** The source's password change locks the user out: after it succeeds,
      logging in with the new password gets 401. */
  method ChangePasswordThenLogin(users: Collection<User>, session: Session, id: Id,
                                 oldPassword: string, newPassword: string, h: Hasher)
    returns (change: Reply, login: Reply)
    requires users.Valid() && UniqueEmails(users.docs)
    requires Injective(h) && NoFixpoint(h)
    modifies users, session
    ensures change.status == 200 ==> login == InvalidCredentialsReply
  {
    change := ChangePassword(users, session.userId, id, oldPassword, newPassword, h);
    if change.status != 200 {
      return change, change;
    }
    var email := users.docs[id].email;
    DoubleHashRejectsNewPassword(h, newPassword);
    forall other | other in users.docs && users.docs[other].email == email
      ensures !Matches(h, newPassword, users.docs[other].password)
    {
      assert other == id;
    }
    var who;
    login, who := LoginUser(users, session, email, newPassword, h);
  }

  /** With the corrected change, logging in with the new password succeeds. */
  method ChangePasswordCorrectedThenLogin(users: Collection<User>, session: Session, id: Id,
                                          oldPassword: string, newPassword: string, h: Hasher)
    returns (change: Reply, login: Reply)
    requires users.Valid() && UniqueEmails(users.docs)
    modifies users, session
    ensures change.status == 200 ==> login.status == 200 && session.userId == Some(id)
  {
    change := ChangePasswordCorrected(users, session.userId, id, oldPassword, newPassword, h);
    if change.status != 200 {
      return change, change;
    }
    var email := users.docs[id].email;
    var who;
    login, who := LoginUser(users, session, email, newPassword, h);
  }

  /** `assignRole` as the source writes it: 404 for an unknown id;
      otherwise only the role changes (an absent role changes nothing), and
      the reply carries the whole document, password hash included. */
  method AssignRole(users: Collection<User>, id: Id, role: Option<string>)
    returns (reply: Reply, updated: Option<UserView>)
    requires users.Valid() && UniqueEmails(users.docs)
    modifies users
    ensures users.Valid() && UniqueEmails(users.docs) && users.order == old(users.order)
    ensures id !in old(users.docs) ==> reply == UserNotFoundReply && updated == None && users.docs == old(users.docs)
    ensures id in old(users.docs) ==>
      reply == Reply(200, "Role assigned successfully")
      && users.docs == old(users.docs)[id := old(users.docs[id]).(role := role.GetOr(old(users.docs[id]).role))]
      && updated == Some(Exposed(id, users.docs[id]))
      && updated.value.password == Some(old(users.docs[id]).password)
  {
    if id !in users.docs {
      return UserNotFoundReply, None;
    }
    var u := users.docs[id].(role := role.GetOr(users.docs[id].role));
    OwnEmailNotTaken(users.docs, id);
    PutKeepsUniqueEmails(users.docs, id, u);
    users.Replace(id, u);
    reply, updated := Reply(200, "Role assigned successfully"), Some(Exposed(id, u));
  }

  /** `assignRole` with the reply stripped of the password, as every other
      user read path does. */
  method AssignRoleCorrected(users: Collection<User>, id: Id, role: Option<string>)
    returns (reply: Reply, updated: Option<UserView>)
    requires users.Valid() && UniqueEmails(users.docs)
    modifies users
    ensures users.Valid() && UniqueEmails(users.docs) && users.order == old(users.order)
    ensures id !in old(users.docs) ==> reply == UserNotFoundReply && updated == None && users.docs == old(users.docs)
    ensures id in old(users.docs) ==>
      reply == Reply(200, "Role assigned successfully")
      && users.docs == old(users.docs)[id := old(users.docs[id]).(role := role.GetOr(old(users.docs[id]).role))]
      && updated == Some(Redacted(id, users.docs[id]))
    ensures updated.Some? ==> updated.value.password == None
  {
    reply, updated := AssignRole(users, id, role);
    if updated.Some? {
      updated := Some(Redacted(id, users.docs[id]));
    }
  }

  /** `createUser` as the source writes it: defaults fill role, permissions
      and status; a missing required field or a taken email gives 400 and
      no change; otherwise exactly one user is added, its password hashed
      once, and the reply carries the saved document, hash included. */
  method CreateUser(users: Collection<User>, newId: Id, input: UserInput, h: Hasher)
    returns (reply: Reply, created: Option<UserView>)
    requires users.Valid() && UniqueEmails(users.docs) && newId !in users.docs
    modifies users
    ensures users.Valid() && UniqueEmails(users.docs)
    ensures reply.status == 201 <==>
      RequiredPresent(Construct(input)) && !EmailTaken(old(users.docs), newId, Construct(input).email)
    ensures reply.status != 201 ==>
      reply == Reply(400, "Error creating user") && created == None
      && users.docs == old(users.docs) && users.order == old(users.order)
    ensures reply.status == 201 ==>
      reply.message == "User created successfully"
      && users.docs == old(users.docs)[newId := Construct(input).(password := h(Construct(input).password))]
      && users.order == old(users.order) + [newId]
      && created == Some(Exposed(newId, users.docs[newId]))
      && created.value.password == Some(h(input.password.value))
  {
    var doc := Construct(input);
    var saved := Save(users, newId, doc, true, h);
    if saved.Err? {
      return Reply(400, "Error creating user"), None;
    }
    reply, created := Reply(201, "User created successfully"), Some(Exposed(newId, saved.value));
  }

  /** `createUser` with the reply stripped of the password. */
  method CreateUserCorrected(users: Collection<User>, newId: Id, input: UserInput, h: Hasher)
    returns (reply: Reply, created: Option<UserView>)
    requires users.Valid() && UniqueEmails(users.docs) && newId !in users.docs
    modifies users
    ensures users.Valid() && UniqueEmails(users.docs)
    ensures reply.status == 201 <==>
      RequiredPresent(Construct(input)) && !EmailTaken(old(users.docs), newId, Construct(input).email)
    ensures reply.status != 201 ==>
      reply == Reply(400, "Error creating user") && created == None
      && users.docs == old(users.docs) && users.order == old(users.order)
    ensures reply.status == 201 ==>
      users.docs == old(users.docs)[newId := Construct(input).(password := h(Construct(input).password))]
      && users.order == old(users.order) + [newId]
      && created == Some(Redacted(newId, users.docs[newId]))
    ensures created.Some? ==> created.value.password == None
  {
    reply, created := CreateUser(users, newId, input, h);
    if created.Some? {
      created := Some(Redacted(newId, users.docs[newId]));
    }
  }

  function Abs(x: int): nat {
    if x < 0 then -x else x
  }

  function Min(a: nat, b: nat): nat {
    if a <= b then a else b
  }

  const DefaultPage := 1
  const DefaultLimit := 10

  /** The response of `getAllUsers`. */
  datatype UsersPage = UsersPage(totalUsers: nat, users: seq<UserView>)

  /** `getAllUsers`: page defaults to 1 and limit to 10; `(page - 1) * limit`
      users are skipped (a negative skip is refused by the store: 500); at
      most `|limit|` users follow (a limit of 0 means no limit), each without
      its password; `totalUsers` counts every user whatever the page. */
  function GetAllUsers(users: map<Id, User>, order: seq<Id>, page: Option<int>, limit: Option<int>)
    : (r: Result<UsersPage, Reply>)
    requires forall i :: 0 <= i < |order| ==> order[i] in users
    ensures var skip := (page.GetOr(DefaultPage) - 1) * limit.GetOr(DefaultLimit);
      && (r.Err? <==> skip < 0)
      && (r.Err? ==> r.error == ServerErrorReply)
      && (r.Ok? ==> r.value.totalUsers == |users|)
      && (r.Ok? && skip <= |order| && limit.GetOr(DefaultLimit) != 0 ==>
            |r.value.users| == Min(Abs(limit.GetOr(DefaultLimit)), |order| - skip))
      && (r.Ok? && skip <= |order| && limit.GetOr(DefaultLimit) == 0 ==> |r.value.users| == |order| - skip)
      && (r.Ok? && skip > |order| ==> r.value.users == [])
      && (r.Ok? ==> forall k :: 0 <= k < |r.value.users| ==>
            skip + k < |order| && r.value.users[k] == Redacted(order[skip + k], users[order[skip + k]]))
  {
    var l := limit.GetOr(DefaultLimit);
    var skip := (page.GetOr(DefaultPage) - 1) * l;
    if skip < 0 then Err(ServerErrorReply)
    else
      var rest := if skip <= |order| then order[skip..] else [];
      var take := if l == 0 then |rest| else Min(Abs(l), |rest|);
      Ok(UsersPage(|users|, seq(take, k requires 0 <= k < take => Redacted(rest[k], users[rest[k]]))))
  }
}
