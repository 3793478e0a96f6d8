/** The update payload (`UserData`): its field defaults, its 6-argument
    constructor and the Bean Validation constraints on its fields. */
module UserPayload {
  import opened Wrappers
  import opened Users
  import opened Tenants

  const EmailMaxLength := 255
  const UsernameMaxLength := 32

  /** Java's nullable fields are `Option`s; `active` is a primitive boolean. */
  datatype UserData = UserData(
    id: Option<int>,
    audit: Audit,
    email: Option<string>,
    profile: Option<Profile>,
    username: Option<string>,
    active: bool,
    tenant: Option<Tenant>)

  /** `@NotBlank`: some character survives `String.trim`, which strips every
      character at or below U+0020. */
  predicate NotBlank(s: string) {
    exists i :: 0 <= i < |s| && s[i] > ' '
  }

  /** `@NotNull @NotBlank @Size(max = 255)` on `email`. */
  predicate ValidEmail(email: Option<string>) {
    email.Some? && NotBlank(email.value) && |email.value| <= EmailMaxLength
  }

  /** `@NotNull @NotBlank @Size(max = 32)` on `username`. */
  predicate ValidUsername(username: Option<string>) {
    username.Some? && NotBlank(username.value) && |username.value| <= UsernameMaxLength
  }

  /** `@NotNull` on `profile`. */
  predicate ValidProfile(profile: Option<Profile>) {
    profile.Some?
  }

  /** What `@Valid` demands of a payload before a handler sees it. */
  predicate Valid(d: UserData) {
    ValidEmail(d.email) && ValidProfile(d.profile) && ValidUsername(d.username)
  }

  /** The no-argument constructor: only the field initialisers apply. */
  function Blank(): (d: UserData)
    ensures d.profile == Some(NORMAL)
    ensures d.active
    ensures d.audit == BlankAudit
    ensures d.id.None? && d.email.None? && d.username.None? && d.tenant.None?
    ensures !Valid(d)
  {
    UserData(None, BlankAudit, None, Some(NORMAL), None, true, None)
  }

  /** The 6-argument constructor: copies its arguments and leaves the tenant
      unset. The field initialisers are overwritten, so a null profile stays null. */
  function Make(id: Option<int>, audit: Audit, email: Option<string>, profile: Option<Profile>,
                username: Option<string>, active: bool): (d: UserData)
    ensures d.id == id && d.audit == audit && d.email == email
    ensures d.profile == profile && d.username == username && d.active == active
    ensures d.tenant.None?
  {
    UserData(id, audit, email, profile, username, active, None)
  }

  /** Any tenant-less payload is what the 6-argument constructor builds from
      its own fields. */
  lemma MakeOfFields(d: UserData)
    requires d.tenant.None?
    ensures Make(d.id, d.audit, d.email, d.profile, d.username, d.active) == d
  {
  }

  /** A constructed payload is valid exactly when the three constrained
      arguments are; id, audit and the active flag do not matter. */
  lemma MakeValidIff(id: Option<int>, audit: Audit, email: Option<string>, profile: Option<Profile>,
                     username: Option<string>, active: bool)
    ensures Valid(Make(id, audit, email, profile, username, active))
        <==> ValidEmail(email) && ValidProfile(profile) && ValidUsername(username)
  {
  }

  /** A valid payload carries a non-empty email of at most 255 characters, a
      non-empty username of at most 32 and a profile. */
  lemma ValidFieldsBounded(d: UserData)
    requires Valid(d)
    ensures 0 < |d.email.value| <= EmailMaxLength
    ensures 0 < |d.username.value| <= UsernameMaxLength
    ensures d.profile.Some?
  {
  }
}
