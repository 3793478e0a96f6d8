/** Properties that span several handlers: what registration, activation and
    deletion mean for a later login, and the register-update-deactivate
    sequence end to end. */
module Lifecycle {
  import opened Wrappers
  import opened Users
  import opened UserPayload
  import opened Authentication
  import opened UserController

  /** A user who just registered can log in with the same secret and is
      identified by the new id. */
  lemma RegisteredUserCanLogIn(s: Store, hash: string -> string, data: Registration, newId: int, tenant: Option<int>)
    requires Wf(s) && newId !in s
    requires Admissible(s, data)
    ensures Wf(Save(s, hash, data, newId, tenant).store)
    ensures LoggedInAs(Authenticate(Save(s, hash, data, newId, tenant).store, hash, data.username, data.password),
                       data.username, newId)
  {
  }

  /** After `deactivate`, the right credentials meet a locked account. */
  lemma DeactivatedUserIsLocked(s: Store, hash: string -> string, id: int, password: string)
    requires Wf(s) && id in s
    requires hash(password) == s[id].password
    ensures Authenticate(Deactivate(s, id).store, hash, s[id].username, password) == Rejected(ACCOUNT_LOCKED)
  {
  }

  /** After `activate`, the right credentials log in. */
  lemma ActivatedUserLogsIn(s: Store, hash: string -> string, id: int, password: string)
    requires Wf(s) && id in s
    requires hash(password) == s[id].password
    ensures LoggedInAs(Authenticate(Activate(s, id).store, hash, s[id].username, password), s[id].username, id)
  {
  }

  /** After a successful `delete`, no secret logs in under the removed
      username, and the id is not found. */
  lemma DeletedUserIsGone(s: Store, hash: string -> string, id: int, password: string)
    requires Wf(s) && id in s && s[id].profile != MASTER
    ensures Authenticate(Delete(s, id).store, hash, s[id].username, password) == Rejected(USER_NOT_FOUND)
    ensures Get(Delete(s, id).store, id) == Failure(UserNotFound(id))
  {
  }

  /** The controller test's sequence: register john, then one update that
      changes the email and clears the active flag. The audit version reads 1
      after registration and 2 after the update, which leaves the account
      inactive under the new email with the same username. */
  lemma RegisterThenUpdate(s: Store, hash: string -> string, newId: int, tenant: Option<int>)
    requires Wf(s) && newId !in s
    requires !EmailTaken(s, "john@email.com") && !UsernameTaken(s, "john")
    requires !EmailTaken(s, "john.micronaut@email.com")
    ensures
      var s1 := Save(s, hash, Registration("john@email.com", "john", "1", "1"), newId, tenant).store;
      var s2 := Update(s1, Make(Some(newId), BlankAudit, Some("john.micronaut@email.com"), Some(NORMAL), Some("john"), false)).store;
      && newId in s1 && s1[newId].audit.version == 1
      && s1[newId].username == "john" && s1[newId].email == "john@email.com"
      && newId in s2 && s2[newId].audit.version == 2
      && s2[newId].username == "john" && s2[newId].email == "john.micronaut@email.com" && !s2[newId].active
  {
    var data := Registration("john@email.com", "john", "1", "1");
    var r1 := Save(s, hash, data, newId, tenant);
    assert r1.outcome.Success?;
    var s1 := r1.store;
    SaveKeepsWf(s, hash, data, newId, tenant);
    var payload := Make(Some(newId), BlankAudit, Some("john.micronaut@email.com"), Some(NORMAL), Some("john"), false);
    assert NotBlank("john") by { assert "john"[0] > ' '; }
    assert NotBlank("john.micronaut@email.com") by { assert "john.micronaut@email.com"[0] > ' '; }
    assert Valid(payload);
    var r2 := Update(s1, payload);
    assert r2.outcome.Success?;
    assert Edited(s1[newId], payload) != s1[newId];
  }

  /** In this model, registering, editing only the email and then
      deactivating leaves audit versions 1, 2 and 3, with the new email kept
      and the account inactive at the end. */
  lemma RegisterUpdateDeactivate(
    s: Store, hash: string -> string, newId: int, tenant: Option<int>, newEmail: string)
    requires Wf(s) && newId !in s
    requires !EmailTaken(s, "john@email.com") && !UsernameTaken(s, "john")
    requires !EmailTaken(s, newEmail) && ValidEmail(Some(newEmail)) && newEmail != "john@email.com"
    ensures
      var s1 := Save(s, hash, Registration("john@email.com", "john", "1", "1"), newId, tenant).store;
      var s2 := Update(s1, Make(Some(newId), BlankAudit, Some(newEmail), Some(NORMAL), Some("john"), true)).store;
      var s3 := Deactivate(s2, newId).store;
      && newId in s1 && s1[newId].audit.version == 1
      && newId in s2 && s2[newId].audit.version == 2 && s2[newId].email == newEmail && s2[newId].active
      && newId in s3 && s3[newId].audit.version == 3 && !s3[newId].active && s3[newId].email == newEmail
  {
    var data := Registration("john@email.com", "john", "1", "1");
    var r1 := Save(s, hash, data, newId, tenant);
    assert r1.outcome.Success?;
    var s1 := r1.store;
    SaveKeepsWf(s, hash, data, newId, tenant);
    var payload := Make(Some(newId), BlankAudit, Some(newEmail), Some(NORMAL), Some("john"), true);
    assert NotBlank("john") by { assert "john"[0] > ' '; }
    assert Valid(payload);
    var edited := Edited(s1[newId], payload);
    var r2 := Update(s1, payload);
    assert r2.outcome.Success?;
    assert edited != s1[newId];
  }
}
