/** The user schema: record shape, defaults, required fields, the unique
    email index, the pre-save hook that hashes a modified password, and
    password comparison. The hash function (bcrypt) is a parameter. */
module UserModel {
  import opened Common
  import opened Store

  /** The one-way password hash, left uninterpreted. Salts and the cost
      factor are inside it. */
  type Hasher = string -> string

  datatype User = User(
    username: string,
    email: string,
    password: string,
    role: string,
    permissions: seq<string>,
    status: string)

  const DefaultRole := "user"
  const DefaultStatus := "active"

  /** The fields of `new UserModel({...})` as the request body gives them. */
  datatype UserInput = UserInput(
    username: Option<string>,
    password: Option<string>,
    email: Option<string>,
    role: Option<string>,
    permissions: Option<seq<string>>,
    status: Option<string>)

  /** `comparePassword` / `bcrypt.compare`: the plaintext hashes to the
      stored value. */
  predicate Matches(h: Hasher, plain: string, stored: string) {
    h(plain) == stored
  }

  /** A hash function that never maps two passwords to one digest. */
  ghost predicate Injective(h: Hasher) {
    forall a, b :: h(a) == h(b) ==> a == b
  }

  /** A hash function whose digest is never the plaintext it came from. */
  ghost predicate NoFixpoint(h: Hasher) {
    forall p :: h(p) != p
  }

  /** The schema's `required: true` string fields are present and non-empty
      (Mongoose refuses "" for a required string). */
  predicate RequiredPresent(u: User) {
    u.username != "" && u.email != "" && u.password != "" && u.role != ""
  }

  /** The unique index on `email`. */
  ghost predicate UniqueEmails(users: map<Id, User>) {
    forall a, b :: a in users && b in users && a != b ==> users[a].email != users[b].email
  }

  /** Another document than `id` already holds `email`. */
  predicate EmailTaken(users: map<Id, User>, id: Id, email: string) {
    exists other :: other in users && other != id && users[other].email == email
  }

  /** `new UserModel(input)`: the schema defaults fill an absent role,
      permission list and status; an absent required string stays empty and
      is refused when saved. */
  function Construct(input: UserInput): (u: User)
    ensures input.role.None? ==> u.role == DefaultRole
    ensures input.status.None? ==> u.status == DefaultStatus
    ensures input.permissions.None? ==> u.permissions == []
    ensures input.username.Some? ==> u.username == input.username.value
    ensures input.role.Some? ==> u.role == input.role.value
    ensures input.permissions.Some? ==> u.permissions == input.permissions.value
    ensures input.status.Some? ==> u.status == input.status.value
    ensures RequiredPresent(u) <==>
      Truthy(input.username) && Truthy(input.email) && Truthy(input.password)
      && (input.role.None? || input.role.value != "")
    ensures input.password.Some? ==> u.password == input.password.value
    ensures input.email.Some? ==> u.email == input.email.value
  {
    User(
      input.username.GetOr(""),
      input.email.GetOr(""),
      input.password.GetOr(""),
      input.role.GetOr(DefaultRole),
      input.permissions.GetOr([]),
      input.status.GetOr(DefaultStatus))
  }

  /** The pre('save') hook: rehash when the password path was modified,
      leave the document alone otherwise. */
  function PreSave(u: User, passwordModified: bool, h: Hasher): User {
    if passwordModified then u.(password := h(u.password)) else u
  }

  /** Why `save()` was refused. */
  datatype SaveError = ValidationError | DuplicateKey

  /** An insertion or replacement whose email no other document holds keeps
      the emails unique. */
  lemma {:induction false} PutKeepsUniqueEmails(users: map<Id, User>, id: Id, u: User)
    requires UniqueEmails(users)
    requires !EmailTaken(users, id, u.email)
    ensures UniqueEmails(users[id := u])
  {
    var m := users[id := u];
    forall a, b | a in m && b in m && a != b ensures m[a].email != m[b].email {
      if a == id {
        assert !(b in users && b != id && users[b].email == u.email);
      } else if b == id {
        assert !(a in users && a != id && users[a].email == u.email);
      }
    }
  }

  /** `doc.save()`: validation, then the pre-save hook, then the write,
      which the unique email index refuses when another document holds the
      email. A refused save changes nothing. */
  method Save(users: Collection<User>, id: Id, doc: User, passwordModified: bool, h: Hasher)
    returns (r: Result<User, SaveError>)
    requires users.Valid() && UniqueEmails(users.docs)
    modifies users
    ensures users.Valid() && UniqueEmails(users.docs)
    ensures !RequiredPresent(doc) ==> r == Err(ValidationError)
    ensures RequiredPresent(doc) && EmailTaken(old(users.docs), id, doc.email) ==> r == Err(DuplicateKey)
    ensures r.Err? ==> users.docs == old(users.docs) && users.order == old(users.order)
    ensures r.Ok? <==> RequiredPresent(doc) && !EmailTaken(old(users.docs), id, doc.email)
    ensures r.Ok? ==> r.value.email == doc.email && users.docs == old(users.docs)[id := r.value]
    ensures r.Ok? ==> users.order == if id in old(users.docs) then old(users.order) else old(users.order) + [id]
    ensures r.Ok? && passwordModified ==> r.value == doc.(password := h(doc.password))
    ensures r.Ok? && !passwordModified ==> r.value == doc
  {
    if !RequiredPresent(doc) {
      return Err(ValidationError);
    }
    var stored := PreSave(doc, passwordModified, h);
    if EmailTaken(users.docs, id, stored.email) {
      return Err(DuplicateKey);
    }
    PutKeepsUniqueEmails(users.docs, id, stored);
    if id in users.docs {
      users.Replace(id, stored);
    } else {
      users.Insert(id, stored);
    }
    r := Ok(stored);
  }

  /** A user as a response shows it: with the password field, or with it
      stripped (`const { password, ...userData } = user.toObject()`,
      `.select('-password')`). */
  datatype UserView = UserView(
    id: Id,
    username: string,
    email: string,
    password: Option<string>,
    role: string,
    permissions: seq<string>,
    status: string)

  function Redacted(id: Id, u: User): UserView {
    UserView(id, u.username, u.email, None, u.role, u.permissions, u.status)
  }

  function Exposed(id: Id, u: User): UserView {
    UserView(id, u.username, u.email, Some(u.password), u.role, u.permissions, u.status)
  }
}
