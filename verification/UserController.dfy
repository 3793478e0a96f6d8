/** The `/users` endpoints as transitions of the user store. Every handler
    returns the store as it stands afterwards together with either a reply or
    the error it raised. */
module UserController {
  import opened Wrappers
  import opened Decimal
  import opened Users
  import opened UserPayload
  import opened Http

  const UsersPath := "/users/"

  /** The registration payload. */
  datatype Registration = Registration(email: string, username: string, password: string, passwordConfirm: string)

  datatype ApiError =
    | EmailInUse(email: string)
    | UsernameInUse(username: string)
    | PasswordMismatch
    | UserNotFound(id: int)
    | MissingId
    | InvalidPayload
    | MasterNotDeletable
    | ConstraintViolation

  /** The status code of an error, where the system fixes one: not-found for
      an absent id, bad request for a refused payload and for the MASTER guard. */
  function ErrorStatus(e: ApiError): (r: Option<Status>)
    ensures r == Some(NOT_FOUND) <==> e.UserNotFound?
    ensures r == Some(BAD_REQUEST) <==> e.InvalidPayload? || e.MasterNotDeletable?
    ensures r.Some? ==> r.value == NOT_FOUND || r.value == BAD_REQUEST
  {
    match e
    case UserNotFound(_) => Some(NOT_FOUND)
    case InvalidPayload => Some(BAD_REQUEST)
    case MasterNotDeletable => Some(BAD_REQUEST)
    case _ => None
  }

  const EmailPrefix := "Email "
  const UsernamePrefix := "Username "
  const InUseSuffix := " already in use."

  /** The message an error carries, where the system spells one out. The
      in-use messages embed the offending value between a fixed prefix and
      suffix, so the value can be read back from the message. */
  function ErrorMessage(e: ApiError): (r: Option<string>)
    ensures r.Some? <==> e.EmailInUse? || e.UsernameInUse? || e.PasswordMismatch? || e.MasterNotDeletable?
    ensures e.EmailInUse? ==>
      && |r.value| == |EmailPrefix| + |e.email| + |InUseSuffix|
      && r.value[..|EmailPrefix|] == EmailPrefix
      && r.value[|EmailPrefix|..|r.value| - |InUseSuffix|] == e.email
      && r.value[|r.value| - |InUseSuffix|..] == InUseSuffix
    ensures e.UsernameInUse? ==>
      && |r.value| == |UsernamePrefix| + |e.username| + |InUseSuffix|
      && r.value[..|UsernamePrefix|] == UsernamePrefix
      && r.value[|UsernamePrefix|..|r.value| - |InUseSuffix|] == e.username
      && r.value[|r.value| - |InUseSuffix|..] == InUseSuffix
    ensures e.PasswordMismatch? ==> r == Some("Password and password confirm do not match.")
    ensures e.MasterNotDeletable? ==> r == Some("It's not allowed to delete a master user.")
  {
    match e
    case EmailInUse(email) =>
      var m := EmailPrefix + email + InUseSuffix;
      assert m[|EmailPrefix|..|m| - |InUseSuffix|] == email;
      Some(m)
    case UsernameInUse(username) =>
      var m := UsernamePrefix + username + InUseSuffix;
      assert m[|UsernamePrefix|..|m| - |InUseSuffix|] == username;
      Some(m)
    case PasswordMismatch => Some("Password and password confirm do not match.")
    case MasterNotDeletable => Some("It's not allowed to delete a master user.")
    case _ => None
  }

  datatype Body = UserBody(user: User) | MessageBody(message: string) | NoBody

  datatype Reply = Reply(status: Status, body: Body, location: Option<string>)

  datatype Step = Step(outcome: Result<Reply, ApiError>, store: Store)

  /** `location`: the URI of a user resource. The id can be read back from it. */
  function Location(id: int): (uri: string)
    ensures |uri| > |UsersPath| && uri[..|UsersPath|] == UsersPath
    ensures ParseLocation(uri) == Some(id)
  {
    var uri := UsersPath + IntToString(id);
    assert uri[|UsersPath|..] == IntToString(id);
    ParseIntOfIntToString(id);
    uri
  }

  /** The id a user location names, if it names one: exactly the inverse of
      `Location`. */
  function ParseLocation(uri: string): (r: Option<int>)
    ensures r.Some? ==> uri == UsersPath + IntToString(r.value)
  {
    if |uri| >= |UsersPath| && uri[..|UsersPath|] == UsersPath then
      var id := ParseInt(uri[|UsersPath|..]);
      if id.Some? then
        IntToStringOfParseInt(uri[|UsersPath|..]);
        assert uri == UsersPath + uri[|UsersPath|..];
        id
      else None
    else None
  }

  /** Distinct users have distinct locations. */
  lemma LocationInjective(a: int, b: int)
    requires Location(a) == Location(b)
    ensures a == b
  {
  }

  /** A string names user `id` exactly when it is that user's location. */
  lemma LocationRoundTrip(uri: string, id: int)
    ensures ParseLocation(uri) == Some(id) <==> uri == Location(id)
  {
  }

  /** The three pre-checks of registration all pass. */
  predicate Admissible(s: Store, data: Registration) {
    !EmailTaken(s, data.email) && !UsernameTaken(s, data.username) && data.password == data.passwordConfirm
  }

  /** The record the repository's `register` creates: the secret stored as its
      digest, NORMAL profile, active, audit version 1. */
  function NewUser(hash: string -> string, data: Registration, id: int, tenant: Option<int>): User {
    User(id, data.email, data.username, hash(data.password), NORMAL, true, Audit(1), tenant)
  }

  /** `save` (POST /users). `newId` is the id the database assigns and
      `tenant` the tenant the repository attaches to the new record. */
  function Save(s: Store, hash: string -> string, data: Registration, newId: int, tenant: Option<int>): (r: Step)
    requires newId !in s
    ensures r.outcome.Failure? <==> r.store == s
    ensures EmailTaken(s, data.email) ==> r.outcome == Failure(EmailInUse(data.email))
    ensures !EmailTaken(s, data.email) && UsernameTaken(s, data.username)
        ==> r.outcome == Failure(UsernameInUse(data.username))
    ensures !EmailTaken(s, data.email) && !UsernameTaken(s, data.username) && data.password != data.passwordConfirm
        ==> r.outcome == Failure(PasswordMismatch)
    ensures r.outcome.Success? <==> Admissible(s, data)
    ensures r.outcome.Success? ==>
      && r.store.Keys == s.Keys + {newId}
      && (forall k :: k in s ==> r.store[k] == s[k])
      && var u := r.store[newId];
         && u.id == newId && u.email == data.email && u.username == data.username
         && u.password == hash(data.password) && u.profile == NORMAL && u.active
         && u.audit.version == 1 && u.tenant == tenant
         && r.outcome.value == Reply(CREATED, UserBody(u), Some(Location(newId)))
  {
    if EmailTaken(s, data.email) then Step(Failure(EmailInUse(data.email)), s)
    else if UsernameTaken(s, data.username) then Step(Failure(UsernameInUse(data.username)), s)
    else if data.password != data.passwordConfirm then Step(Failure(PasswordMismatch), s)
    else
      var user := NewUser(hash, data, newId, tenant);
      Step(Success(Reply(CREATED, UserBody(user), Some(Location(newId)))), s[newId := user])
  }

  /** The stored record with the payload's editable fields written over it. */
  function Edited(u: User, data: UserData): User
    requires Valid(data)
  {
    u.(email := data.email.value, username := data.username.value, profile := data.profile.value, active := data.active)
  }

  /** Another stored user already holds this email or username. */
  predicate ClashesWithOthers(s: Store, id: int, u: User) {
    exists k :: k in s && k != id && (s[k].email == u.email || s[k].username == u.username)
  }

  /** `update` (PUT /users): validate the payload, find the record, write the
      edited record back. A write that would break the unique columns is
      refused by the database. */
  function Update(s: Store, data: UserData): (r: Step)
    ensures r.outcome.Failure? ==> r.store == s
    ensures !Valid(data) ==> r.outcome == Failure(InvalidPayload)
    ensures Valid(data) && data.id.Some? && data.id.value !in s ==> r.outcome == Failure(UserNotFound(data.id.value))
    ensures r.outcome.Success? <==>
      Valid(data) && data.id.Some? && data.id.value in s && !ClashesWithOthers(s, data.id.value, Edited(s[data.id.value], data))
    ensures r.outcome.Success? ==>
      var id := data.id.value;
      && SameExcept(s, r.store, id)
      && var u := r.store[id];
         && u.email == data.email.value && u.username == data.username.value
         && u.profile == data.profile.value && u.active == data.active
         && u.id == s[id].id && u.password == s[id].password && u.tenant == s[id].tenant
         && u.audit.version == s[id].audit.version + (if u.(audit := s[id].audit) == s[id] then 0 else 1)
         && r.outcome.value == Reply(OK, UserBody(u), Some(Location(id)))
  {
    if !Valid(data) then Step(Failure(InvalidPayload), s)
    else if data.id.None? then Step(Failure(MissingId), s)
    else if data.id.value !in s then Step(Failure(UserNotFound(data.id.value)), s)
    else
      var id := data.id.value;
      var next := Edited(s[id], data);
      if ClashesWithOthers(s, id, next) then Step(Failure(ConstraintViolation), s)
      else
        var stored := Saved(s[id], next);
        Step(Success(Reply(OK, UserBody(stored), Some(Location(id)))), s[id := stored])
  }

  /** `get` (GET /users/{id}). */
  function Get(s: Store, id: int): (r: Result<User, ApiError>)
    ensures r.Success? <==> id in s
    ensures r.Success? ==> r.value == s[id]
    ensures r.Failure? ==> r.error == UserNotFound(id) && ErrorStatus(r.error) == Some(NOT_FOUND)
  {
    if id in s then Success(s[id]) else Failure(UserNotFound(id))
  }

  /** The shared body of `activate` and `deactivate`. */
  function SetActive(s: Store, id: int, flag: bool): (r: Step)
    ensures id !in s ==> r == Step(Failure(UserNotFound(id)), s)
    ensures id in s ==>
      && r.outcome == Success(Reply(NO_CONTENT, NoBody, None))
      && SameExcept(s, r.store, id)
      && r.store[id].active == flag
      && r.store[id].(active := s[id].active, audit := s[id].audit) == s[id]
      && (s[id].active == flag ==> r.store[id] == s[id])
      && (s[id].active != flag ==> r.store[id].audit.version == s[id].audit.version + 1)
  {
    if id !in s then Step(Failure(UserNotFound(id)), s)
    else
      var user := s[id];
      Step(Success(Reply(NO_CONTENT, NoBody, None)), s[id := Saved(user, user.(active := flag))])
  }

  /** `activate` (PATCH /users/{id}/activate). */
  function Activate(s: Store, id: int): (r: Step)
    ensures id !in s ==> r == Step(Failure(UserNotFound(id)), s)
    ensures id in s ==> r.outcome.Success? && SameExcept(s, r.store, id) && r.store[id].active
  {
    SetActive(s, id, true)
  }

  /** `deactivate` (PATCH /users/{id}/deactivate). */
  function Deactivate(s: Store, id: int): (r: Step)
    ensures id !in s ==> r == Step(Failure(UserNotFound(id)), s)
    ensures id in s ==> r.outcome.Success? && SameExcept(s, r.store, id) && !r.store[id].active
  {
    SetActive(s, id, false)
  }

  const DeletedPrefix := "User (id: "
  const DeletedSuffix := ") successfully deleted."

  /** The message of a successful delete; the deleted id can be read back
      from it. */
  function DeletedMessage(id: int): (m: string)
    ensures |m| > |DeletedPrefix| + |DeletedSuffix|
    ensures m[..|DeletedPrefix|] == DeletedPrefix && m[|m| - |DeletedSuffix|..] == DeletedSuffix
    ensures ParseInt(m[|DeletedPrefix|..|m| - |DeletedSuffix|]) == Some(id)
  {
    var m := DeletedPrefix + IntToString(id) + DeletedSuffix;
    assert m[|DeletedPrefix|..|m| - |DeletedSuffix|] == IntToString(id);
    ParseIntOfIntToString(id);
    m
  }

  /** `delete` (DELETE /users/{id}): MASTER accounts are never removed. */
  function Delete(s: Store, id: int): (r: Step)
    ensures id !in s ==> r == Step(Failure(UserNotFound(id)), s)
    ensures id in s && s[id].profile == MASTER ==>
      && r == Step(Failure(MasterNotDeletable), s)
      && ErrorStatus(r.outcome.error) == Some(BAD_REQUEST)
    ensures r.outcome.Success? <==> id in s && s[id].profile != MASTER
    ensures r.outcome.Success? ==>
      && r.store.Keys == s.Keys - {id}
      && (forall k :: k in r.store ==> r.store[k] == s[k])
      && r.outcome.value == Reply(OK, MessageBody(DeletedMessage(s[id].id)), None)
  {
    if id !in s then Step(Failure(UserNotFound(id)), s)
    else
      var user := s[id];
      if user.profile == MASTER then Step(Failure(MasterNotDeletable), s)
      else Step(Success(Reply(OK, MessageBody(DeletedMessage(user.id)), None)), s - {id})
  }

  /** Every handler keyed by an id answers "not found" for an absent id and
      leaves the store alone. */
  lemma AbsentIdIsNotFound(s: Store, id: int, data: UserData)
    requires id !in s
    requires Valid(data) && data.id == Some(id)
    ensures Get(s, id) == Failure(UserNotFound(id))
    ensures Update(s, data) == Step(Failure(UserNotFound(id)), s)
    ensures Activate(s, id) == Step(Failure(UserNotFound(id)), s)
    ensures Deactivate(s, id) == Step(Failure(UserNotFound(id)), s)
    ensures Delete(s, id) == Step(Failure(UserNotFound(id)), s)
    ensures ErrorStatus(UserNotFound(id)) == Some(NOT_FOUND)
  {
  }

  /** Activating twice leaves the store as activating once. */
  lemma ActivateIdempotent(s: Store, id: int)
    ensures Activate(Activate(s, id).store, id) == Activate(s, id)
  {
  }

  /** Deactivating twice leaves the store as deactivating once. */
  lemma DeactivateIdempotent(s: Store, id: int)
    ensures Deactivate(Deactivate(s, id).store, id) == Deactivate(s, id)
  {
  }

  lemma SaveKeepsWf(s: Store, hash: string -> string, data: Registration, newId: int, tenant: Option<int>)
    requires Wf(s) && newId !in s
    ensures Wf(Save(s, hash, data, newId, tenant).store)
  {
  }

  lemma UpdateKeepsWf(s: Store, data: UserData)
    requires Wf(s)
    ensures Wf(Update(s, data).store)
  {
  }

  lemma SetActiveKeepsWf(s: Store, id: int, flag: bool)
    requires Wf(s)
    ensures Wf(SetActive(s, id, flag).store)
  {
  }

  lemma DeleteKeepsWf(s: Store, id: int)
    requires Wf(s)
    ensures Wf(Delete(s, id).store)
  {
  }
}
