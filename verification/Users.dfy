/** The user entity and the user repository, abstracted as a map from id to
    record. The repository's queries are specified only by how the
    controllers use them. */
module Users {
  import opened Wrappers

  datatype Profile = NORMAL | MASTER

  /** The audit record embedded in every user; only its version counter is
      modelled (the timestamps are not). */
  datatype Audit = Audit(version: nat)

  /** The audit record of a newly built payload (`new Audit()`). */
  const BlankAudit := Audit(0)

  /** A stored user. `password` holds the digest of the secret, never the
      secret itself; `tenant` references a tenant by id. */
  datatype User = User(
    id: int,
    email: string,
    username: string,
    password: string,
    profile: Profile,
    active: bool,
    audit: Audit,
    tenant: Option<int>)

  type Store = map<int, User>

  /** Every record is filed under its own id. */
  ghost predicate KeysAreIds(s: Store) {
    forall k :: k in s ==> s[k].id == k
  }

  /** The database's unique constraint on the username column. */
  ghost predicate UniqueUsernames(s: Store) {
    forall a, b :: a in s && b in s && s[a].username == s[b].username ==> a == b
  }

  /** The database's unique constraint on the email column. */
  ghost predicate UniqueEmails(s: Store) {
    forall a, b :: a in s && b in s && s[a].email == s[b].email ==> a == b
  }

  /** The invariant every reachable store keeps. */
  ghost predicate Wf(s: Store) {
    KeysAreIds(s) && UniqueUsernames(s) && UniqueEmails(s)
  }

  /** `validateEmail`: true when some stored user already has this email. */
  predicate EmailTaken(s: Store, email: string) {
    exists k :: k in s && s[k].email == email
  }

  /** `validateUsername`: true when some stored user already has this username. */
  predicate UsernameTaken(s: Store, username: string) {
    exists k :: k in s && s[k].username == username
  }

  /** `s'` is `s` with at most the record under `id` replaced. */
  ghost predicate SameExcept(s: Store, s': Store, id: int) {
    s'.Keys == s.Keys && forall k :: k in s && k != id ==> s'[k] == s[k]
  }

  /** The record the repository's `save` writes back when `next` replaces
      `previous`: the audit version goes up by exactly one when anything
      changed, and nothing is written when nothing changed. */
  function Saved(previous: User, next: User): (r: User)
    requires next.audit == previous.audit
    ensures r.(audit := previous.audit) == next
    ensures next == previous ==> r == previous
    ensures next != previous ==> r.audit.version == previous.audit.version + 1
  {
    if next == previous then previous else next.(audit := Audit(previous.audit.version + 1))
  }
}
