/** The username/password authentication provider. The digest function
    (MD5 in the system) is a parameter: nothing about it is assumed beyond
    being a function. */
module Authentication {
  import opened Wrappers
  import opened Users

  /** The attribute key under which the authenticated user's id travels.
      The contracts promise only this attribute, not the absence of others. */
  const UserIdKey := "userId"

  datatype FailureReason = USER_NOT_FOUND | ACCOUNT_LOCKED

  /** Either a success for an identity with its attributes, or a failure with
      its reason. */
  datatype AuthResult =
    | Authenticated(identity: string, attributes: map<string, int>)
    | Rejected(reason: FailureReason)

  predicate Matches(u: User, username: string, digest: string) {
    u.username == username && u.password == digest
  }

  /** Some stored user has exactly this username and this password digest. */
  predicate HasMatch(s: Store, username: string, digest: string) {
    exists k :: k in s && Matches(s[k], username, digest)
  }

  /** `findByCredentials`: the stored user with this username and digest. The
      unique username constraint makes the answer unique. */
  function FindByCredentials(s: Store, username: string, digest: string): (r: Option<User>)
    requires UniqueUsernames(s)
    ensures r.None? <==> !HasMatch(s, username, digest)
    ensures r.Some? ==> exists k :: k in s && s[k] == r.value && Matches(r.value, username, digest)
  {
    if HasMatch(s, username, digest) then
      var k :| k in s && Matches(s[k], username, digest);
      Some(s[k])
    else
      None
  }

  /** `authenticate`: hash the secret, look the pair up, then classify. */
  function Authenticate(s: Store, hash: string -> string, username: string, password: string): (r: AuthResult)
    requires UniqueUsernames(s)
    ensures r == Rejected(USER_NOT_FOUND) <==> !HasMatch(s, username, hash(password))
    ensures r == Rejected(ACCOUNT_LOCKED)
        <==> exists k :: k in s && Matches(s[k], username, hash(password)) && !s[k].active
    ensures r.Authenticated?
        <==> exists k :: k in s && Matches(s[k], username, hash(password)) && s[k].active
    ensures r.Authenticated? ==>
      && r.identity == username
      && exists k :: k in s && Matches(s[k], username, hash(password)) && s[k].active
                     && UserIdKey in r.attributes && r.attributes[UserIdKey] == s[k].id
  {
    var digest := hash(password);
    match FindByCredentials(s, username, digest)
    case None => Rejected(USER_NOT_FOUND)
    case Some(user) =>
      if !user.active then Rejected(ACCOUNT_LOCKED)
      else Authenticated(username, map[UserIdKey := user.id])
  }

  /** Two secrets with the same digest get the same outcome. */
  lemma OutcomeDependsOnlyOnDigest(s: Store, hash: string -> string, username: string, p1: string, p2: string)
    requires UniqueUsernames(s)
    requires hash(p1) == hash(p2)
    ensures Authenticate(s, hash, username, p1) == Authenticate(s, hash, username, p2)
  {
  }

  /** A success whose user id attribute is `id`. */
  predicate LoggedInAs(r: AuthResult, username: string, id: int) {
    r.Authenticated? && r.identity == username && UserIdKey in r.attributes && r.attributes[UserIdKey] == id
  }

  /** On a well-formed store a success names the matched record's id, which
      is its key. */
  lemma SuccessCarriesStoredId(s: Store, hash: string -> string, username: string, password: string, id: int)
    requires Wf(s)
    requires id in s && Matches(s[id], username, hash(password)) && s[id].active
    ensures LoggedInAs(Authenticate(s, hash, username, password), username, id)
  {
  }
}
