/** The query records of the repository contracts
    (crates/domain/src/repository/staff.rs and tenant.rs). `u64` limits and
    offsets are natural numbers. */
module RepositoryQueries {
  import opened Prelude
  import opened Tenants
  import opened Staffs

  /** Lookup by identifier, by external auth identifier, or by both (both
      must then match). `withTenant` asks for the tenant snapshot. */
  datatype GetStaffQuery = GetStaffQuery(id: Option<StaffId>, authUid: Option<string>, withTenant: bool)

  /** Optional tenant filter plus optional LIMIT / OFFSET. */
  datatype ListStaffQuery = ListStaffQuery(tenantId: Option<TenantId>, limit: Option<nat>, offset: Option<nat>)

  datatype GetTenantQuery = GetTenantQuery(id: Option<TenantId>)

  datatype ListTenantQuery = ListTenantQuery(limit: Option<nat>, offset: Option<nat>)

  // The derived `Default` of `GetStaffQuery`, the one default the use cases
  // build on: no key and no tenant snapshot.
  const DefaultGetStaffQuery := GetStaffQuery(None, None, false)
}
