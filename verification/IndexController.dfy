/** The index endpoints: the sanity check and the per-request context. The
    current user and tenant ids arrive as parameters instead of from the
    thread-bound authentication context. */
module IndexController {
  import opened Wrappers
  import opened Users
  import opened Tenants
  import opened Http

  const SanityCheck := "sanity check"

  /** `index` (GET /): a constant liveness answer. */
  function Index(): (r: string)
    ensures r == "sanity check"
  {
    SanityCheck
  }

  /** The context; each field is absent when its entity was not found. */
  datatype Context = Context(user: Option<User>, tenant: Option<Tenant>)

  datatype ContextReply = ContextReply(status: Status, content: Context)

  /** `findById` on a map: present exactly when stored. */
  function Lookup<T>(m: map<int, T>, id: int): (r: Option<T>)
    ensures r.Some? <==> id in m
    ensures r.Some? ==> r.value == m[id]
  {
    if id in m then Some(m[id]) else None
  }

  /** `findById` with a possibly null id: a null id is taken to find nothing. */
  function LookupNullable<T>(m: map<int, T>, id: Option<int>): (r: Option<T>)
    ensures r.Some? <==> id.Some? && id.value in m
    ensures r.Some? ==> r.value == m[id.value]
  {
    if id.Some? then Lookup(m, id.value) else None
  }

  /** `context` (GET /context): two independent lookups, never an error. A
      user without a tenant has no tenant id, and then the tenant field is
      absent. */
  function AssembleContext(users: Store, tenants: TenantStore, userId: int, tenantId: Option<int>): (r: ContextReply)
    ensures r.status == OK
    ensures r.content.user.Some? <==> userId in users
    ensures r.content.user.Some? ==> r.content.user.value == users[userId]
    ensures r.content.tenant.Some? <==> tenantId.Some? && tenantId.value in tenants
    ensures r.content.tenant.Some? ==> r.content.tenant.value == tenants[tenantId.value]
  {
    var context := Context(None, None);
    var userOpt := Lookup(users, userId);
    var tenantOpt := LookupNullable(tenants, tenantId);
    var withUser := if userOpt.Some? then context.(user := userOpt) else context;
    var withTenant := if tenantOpt.Some? then withUser.(tenant := tenantOpt) else withUser;
    ContextReply(OK, withTenant)
  }

  /** The user field depends only on the user store at `userId`, and the
      tenant field only on the tenant store at `tenantId`. */
  lemma ContextFieldsIndependent(
    users1: Store, tenants1: TenantStore, users2: Store, tenants2: TenantStore,
    userId: int, tenantId: Option<int>, userId2: int, tenantId2: Option<int>)
    ensures Lookup(users1, userId) == Lookup(users2, userId2) ==>
              (AssembleContext(users1, tenants1, userId, tenantId).content.user
               == AssembleContext(users2, tenants2, userId2, tenantId2).content.user)
    ensures LookupNullable(tenants1, tenantId) == LookupNullable(tenants2, tenantId2) ==>
              (AssembleContext(users1, tenants1, userId, tenantId).content.tenant
               == AssembleContext(users2, tenants2, userId2, tenantId2).content.tenant)
  {
  }
}
