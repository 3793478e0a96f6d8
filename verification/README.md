# User accounts, login and request context — a Dafny model

This project models the core of a small multi-tenant user service (Micronaut,
Java): how a username/password login is classified, the rules of the `/users`
endpoints (registration checks, update, activation, the MASTER delete guard,
resource locations), how the per-request context of current user and tenant
is put together, and the validation rules of the user update payload.

The user repository is a `map<int, User>` (`Users.Store`) and the tenant
repository a `map<int, Tenant>`. Every handler is a pure function that returns
the store as it stands afterwards next to either a reply or the error the
handler raised. A failing handler returns its input store, so "nothing
changes" can be stated as an equation. Authentication and context assembly
return no store at all, so they are read-only by construction.

Modules:

- `Wrappers`: `Option` (nullable references, `Optional`) and `Result` (thrown exceptions).
- `Http`: the status codes the handlers answer with.
- `Decimal`: Java's `Long.toString` and its inverse. The `/users/{id}` location is built with it.
- `Tenants`: the opaque tenant entity.
- `Users`: the user entity, the audit version and the store invariant `Wf`. `Wf` says every record is filed under its own id and that usernames and emails are unique (the database's unique columns). `Users.Saved` is the assumed write-back rule of the repository's `save`.
- `UserPayload`: the `UserData` update payload, its defaults, its 6-argument constructor and its `@Valid` rules.
- `Authentication`: the username/password authentication provider.
- `UserController`: the `/users` handlers.
- `IndexController`: `index` and `context`.
- `Lifecycle`: properties that connect several handlers. It includes the controller test's register-then-update sequence (`RegisterThenUpdate`) and a register, update, deactivate sequence of this model (`RegisterUpdateDeactivate`).

Assumptions about code that is not part of this model:

- The digest function (MD5) is the parameter `hash`; nothing is assumed of it.
- `findByCredentials` returns the stored user whose username and digest are both equal to the given ones. The unique username column makes that user unique.
- `validateEmail` and `validateUsername` answer true when the value is already taken, which is how `save` uses them.
- `findByIdOrThrowException` answers NOT_FOUND for an absent id, as the controller test expects.
- `register` stores the digest of the secret, profile NORMAL, active, audit version 1. The database assigns the id (`newId`), and the tenant it attaches is a parameter.
- `update` writes the payload's email, username, profile and active flag over the stored record. It keeps the stored id, digest and tenant. A write that would duplicate another user's email or username is refused by the database (`ConstraintViolation`).
- `save` (used by `activate`, `deactivate` and `update`) raises the audit version by exactly one when the record changed and writes nothing when it did not. This is how dirty checking treats an unchanged entity. It makes `activate` and `deactivate` idempotent on the whole store, and it gives the versions 1 and then 2 that the controller test reads after registration and one update.
- The attribute key that carries the user id after a successful login is `"userId"`. The helper that sets it is not part of this model, so the contracts promise that attribute and say nothing about any other.
- A payload built with `new Audit()` carries audit version 0 (`Users.BlankAudit`). The audit class is not part of this model; the update ignores the payload's audit anyway.

## Model

| member | source | states |
|---|---|---|
| Authentication.Authenticate | src/main/java/com/pedrozc90/core/authentication/AuthenticationProviderUserPassword.java:33-53 | USER_NOT_FOUND exactly when no stored user has the username and the secret's digest; ACCOUNT_LOCKED exactly when the matching user is inactive; success exactly when the matching user is active, with the submitted username as identity and a `userId` attribute holding the matched user's id |
| Authentication.FindByCredentials | src/main/java/com/pedrozc90/core/authentication/AuthenticationProviderUserPassword.java:38 | the lookup finds nothing exactly when no stored user matches both username and digest; what it finds is a stored, matching record |
| Authentication.OutcomeDependsOnlyOnDigest | src/main/java/com/pedrozc90/core/authentication/AuthenticationProviderUserPassword.java:36-38 | two secrets with the same digest get the same outcome |
| Authentication.SuccessCarriesStoredId | src/main/java/com/pedrozc90/core/authentication/AuthenticationProviderUserPassword.java:44-48 | on a well-formed store, an active user with matching credentials logs in with its own store key as the user id attribute |
| UserController.Save | src/main/java/com/pedrozc90/users/controllers/UserController.java:45-65 | registration errors come in a fixed order: email in use, then username in use, then password mismatch. Any error leaves the store unchanged. Success happens exactly when all three checks pass. It adds only the new id, stores the digest with profile NORMAL, active and version 1, and replies CREATED with location `/users/<id>` |
| UserController.Update | src/main/java/com/pedrozc90/users/controllers/UserController.java:67-74 | an invalid payload is refused first and an absent id is not found. Any failure leaves the store unchanged. Success touches only the target record: it takes the payload's email, username, profile and active flag, keeps id, digest and tenant, raises the version by one when something changed, and replies OK with location `/users/<id>` |
| UserController.Get | src/main/java/com/pedrozc90/users/controllers/UserController.java:76-79 | a stored id yields its record; an absent id fails with NOT_FOUND |
| UserController.SetActive | src/main/java/com/pedrozc90/users/controllers/UserController.java:81-95 | an absent id fails and changes nothing. Otherwise the reply is NO_CONTENT and only the target's flag changes, to the requested value. Its version goes up by one when the flag flipped; the record is untouched when the flag already held |
| UserController.Activate | src/main/java/com/pedrozc90/users/controllers/UserController.java:81-87 | an absent id fails and changes nothing; otherwise the record ends active and every other record is unchanged |
| UserController.Deactivate | src/main/java/com/pedrozc90/users/controllers/UserController.java:89-95 | an absent id fails and changes nothing; otherwise the record ends inactive and every other record is unchanged |
| UserController.Delete | src/main/java/com/pedrozc90/users/controllers/UserController.java:97-115 | an absent id is not found. A MASTER record is refused with BAD_REQUEST and the store unchanged. Success happens exactly for a stored non-MASTER record: it removes exactly that id and keeps every other record unchanged |
| UserController.Location | src/main/java/com/pedrozc90/users/controllers/UserController.java:117-119 | a location starts with `/users/` and the id can be read back from it |
| UserController.ParseLocation | src/main/java/com/pedrozc90/users/controllers/UserController.java:117-119 | whatever a location parses to, the location is exactly `/users/` followed by that id's rendering |
| UserController.LocationRoundTrip | src/main/java/com/pedrozc90/users/controllers/UserController.java:117-119 | a string names user `id` exactly when it is that user's location |
| UserController.ErrorStatus | src/main/java/com/pedrozc90/users/controllers/UserController.java:97-105 | NOT_FOUND exactly for an absent id; BAD_REQUEST exactly for a refused payload and for the MASTER delete guard |
| UserController.ErrorMessage | src/main/java/com/pedrozc90/users/controllers/UserController.java:48-104 | the four messages the handlers spell out, and only those. The in-use messages are `Email <email> already in use.` and `Username <username> already in use.`, and the offending value can be read back from between the fixed prefix and suffix |
| UserController.DeletedMessage | src/main/java/com/pedrozc90/users/controllers/UserController.java:109 | the delete confirmation has the fixed prefix `User (id: ` and suffix `) successfully deleted.`, and the deleted id can be read back from between them |
| UserController.LocationInjective | src/main/java/com/pedrozc90/users/controllers/UserController.java:117-119 | distinct ids get distinct locations |
| UserController.AbsentIdIsNotFound | src/main/java/com/pedrozc90/users/controllers/UserController.java:67-100 | get, update, activate, deactivate and delete on an absent id all fail with not-found (NOT_FOUND) and leave the store as it was |
| UserController.ActivateIdempotent | src/main/java/com/pedrozc90/users/controllers/UserController.java:81-87 | activating twice gives the same store and reply as activating once |
| UserController.DeactivateIdempotent | src/main/java/com/pedrozc90/users/controllers/UserController.java:89-95 | deactivating twice gives the same store and reply as deactivating once |
| UserController.SaveKeepsWf | src/main/java/com/pedrozc90/users/controllers/UserController.java:48-56 | registration keeps ids as keys and usernames and emails unique |
| UserController.UpdateKeepsWf | src/main/java/com/pedrozc90/users/controllers/UserController.java:67-74 | update keeps ids as keys and usernames and emails unique |
| UserController.SetActiveKeepsWf | src/main/java/com/pedrozc90/users/controllers/UserController.java:81-95 | activation and deactivation keep the store invariant |
| UserController.DeleteKeepsWf | src/main/java/com/pedrozc90/users/controllers/UserController.java:97-107 | deletion keeps the store invariant |
| Users.Saved | src/test/java/com/pedrozc90/users/UserControllerTest.java:172-202 | a written-back record equals the edited one apart from its audit. The version rises by exactly one when the record changed; nothing is written when it did not |
| Decimal.NatToString | src/main/java/com/pedrozc90/users/controllers/UserController.java:117-119 | the decimal rendering of an id is a non-empty string of digits |
| Decimal.DigitsValueOfNatToString | src/main/java/com/pedrozc90/users/controllers/UserController.java:117-119 | reading the digits of a rendered natural number gives the number back |
| Decimal.IntToString | src/main/java/com/pedrozc90/users/controllers/UserController.java:117-119 | the rendering of a non-negative id is canonical digits; a negative id renders as `-` followed by canonical digits that do not start with 0 |
| Decimal.NatToStringOfDigitsValue | src/main/java/com/pedrozc90/users/controllers/UserController.java:117-119 | every canonical digit string is the rendering of its own value |
| Decimal.IntToStringOfParseInt | src/main/java/com/pedrozc90/users/controllers/UserController.java:117-119 | every string the parser accepts is the rendering of the integer it returns |
| Decimal.ParseIntOfIntToString | src/main/java/com/pedrozc90/users/controllers/UserController.java:117-119 | parsing the rendering of any integer, negative ones included, gives the integer back |
| IndexController.Index | src/main/java/com/pedrozc90/IndexController.java:36-40 | the index answer is always the constant `sanity check` |
| IndexController.AssembleContext | src/main/java/com/pedrozc90/IndexController.java:47-61 | the reply is always OK. The user field is present exactly when the user store holds the user id, and then it is that record. The tenant field is present exactly when there is a tenant id and the tenant store holds it, and then it is that record |
| IndexController.ContextFieldsIndependent | src/main/java/com/pedrozc90/IndexController.java:50-58 | the user field depends only on the user store at the user id, and the tenant field only on the tenant store at the tenant id |
| UserPayload.Blank | src/main/java/com/pedrozc90/users/models/UserData.java:28-62 | a fresh payload has profile NORMAL and is active. It has a blank audit and no id, email, username or tenant, so it is not valid |
| UserPayload.Make | src/main/java/com/pedrozc90/users/models/UserData.java:64-71 | the 6-argument constructor copies id, audit, email, profile, username and active verbatim and leaves the tenant unset |
| UserPayload.MakeOfFields | src/main/java/com/pedrozc90/users/models/UserData.java:64-71 | every tenant-less payload is rebuilt by the 6-argument constructor from its own fields |
| UserPayload.MakeValidIff | src/main/java/com/pedrozc90/users/models/UserData.java:35-54 | a constructed payload is valid exactly when its email, its username and its profile are valid. Id, audit and active do not matter |
| UserPayload.ValidFieldsBounded | src/main/java/com/pedrozc90/users/models/UserData.java:35-54 | a valid payload has a non-empty email of at most 255 characters, a non-empty username of at most 32 characters, and a profile |
| Lifecycle.RegisteredUserCanLogIn | src/main/java/com/pedrozc90/core/authentication/AuthenticationProviderUserPassword.java:36-48 | after a successful registration, the new username with the registered secret logs in and is identified by the new id |
| Lifecycle.DeactivatedUserIsLocked | src/main/java/com/pedrozc90/core/authentication/AuthenticationProviderUserPassword.java:40-43 | after deactivation, the right credentials give ACCOUNT_LOCKED |
| Lifecycle.ActivatedUserLogsIn | src/main/java/com/pedrozc90/core/authentication/AuthenticationProviderUserPassword.java:44-48 | after activation, the right credentials log in with the user's id |
| Lifecycle.DeletedUserIsGone | src/main/java/com/pedrozc90/users/controllers/UserController.java:97-107 | after a successful delete, any secret under the removed username gives USER_NOT_FOUND, and get on the id is not found |
| Lifecycle.RegisterThenUpdate | src/test/java/com/pedrozc90/users/UserControllerTest.java:161-202 | registering john gives audit version 1. One update that changes the email and clears the active flag gives version 2, the new email, the same username and an inactive account |
| Lifecycle.RegisterUpdateDeactivate | src/main/java/com/pedrozc90/users/controllers/UserController.java:89-95 | in this model, registering, editing only the email and then deactivating leaves audit versions 1, 2 and 3, with the new email kept and the account inactive at the end |

## Left out

- Authentication.Authenticate: requires the unique username constraint of the store (`UniqueUsernames`). The repository query is not part of this model, and without uniqueness its single answer is not determined.
- Authentication.Authenticate: the contract promises the `userId` attribute only. Any tenant claim added by the attribute helper is not modelled, because that helper is not part of this model.
- Authentication.Authenticate: the JWT issued after success, and the reactive `Flux` emitter, are framework wiring. The model returns the classified outcome directly.
- UserController.Save: requires an unused `newId`, standing for the database's id sequence. The `PersistenceException` path that answers BAD_REQUEST is not modelled: the three pre-checks rule out unique-column clashes when requests do not interleave.
- UserController.Save: the `@Valid` check of the registration payload is not modelled, because the registration payload's constraints are not part of this model. Success is promised exactly when the three pre-checks pass, for payloads that validation lets through.
- UserController.Delete: the `PersistenceException` raised by the repository's `remove`, answered with BAD_REQUEST, is not modelled. The repository's failure modes are not part of this model, so success is promised for every stored non-MASTER record.
- UserController.Update: a payload with a null id is modelled as the failure `MissingId`. The repository's reaction to a null id is not part of this model. The payload's audit and tenant are ignored, as there is no optimistic version check.
- UserController.Update: `ConstraintViolation` stands for the database refusing a duplicate email or username. The source does not catch this exception, so its HTTP status is not modelled.
- The registration errors raised through `ApplicationException.of` have no modelled status: that class is not part of this model. Their messages are modelled.
- Requests are modelled one at a time: each handler runs to completion on the store it is given. Two registrations that both pass the email and username checks before either is stored are not modelled; in the system the database's unique constraint then refuses the second one and `save` answers BAD_REQUEST. Concurrent updates of the same user are not modelled either.
- `fetch` (GET /users) is not modelled: it is repository pagination and search, and its code is not part of this model.
- `/ping` and `/secured`, the `@Secured` and `@ExecuteOn` annotations, and the token issuing and verification are HTTP and security plumbing.
- IndexController.AssembleContext: a null tenant id is modelled as a lookup that finds nothing. What the tenant repository does with a null id is not part of this model.
- IndexController.AssembleContext: the user and tenant ids are parameters. In the system they come from the thread-bound authentication context, which is ambient state.
- The `@Email` format check is not modelled, and neither is the rest of Bean Validation beyond not-null, not-blank and maximum size.
- The size limits count Dafny characters (Unicode scalar values). Java counts UTF-16 code units, so the two differ only for characters outside the Basic Multilingual Plane.
- Null strings in the registration payload are not modelled; every registration field is a string.
- The audit timestamps are not modelled; only the version counter is.
- The public view of a user that hides the password digest is not modelled: it belongs to JSON serialisation.
- The QueryDSL query class is ORM glue and has no behaviour of its own.
