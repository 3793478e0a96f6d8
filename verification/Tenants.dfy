/** Tenants are opaque here: an entity resolvable by its id. */
module Tenants {

  datatype Tenant = Tenant(id: int)

  /** The tenant repository, keyed by tenant id. */
  type TenantStore = map<int, Tenant>
}
