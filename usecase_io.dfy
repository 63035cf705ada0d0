/** The input and output records of the use-case layer
    (crates/usecase/src/input/tenant.rs, crates/usecase/src/input/staff.rs,
    crates/usecase/src/output/tenant.rs). `u64` limits, offsets and counts
    are natural numbers. */
module UsecaseIo {
  import opened Prelude
  import opened StaffRoles
  import opened Tenants
  import opened Staffs

  datatype CreateTenantInput = CreateTenantInput(name: string)

  /** An absent name leaves the stored name alone. */
  datatype UpdateTenantInput = UpdateTenantInput(id: TenantId, name: Option<string>)

  datatype GetTenantInput = GetTenantInput(id: TenantId)

  datatype ListTenantInput = ListTenantInput(limit: Option<nat>, offset: Option<nat>)

  datatype DeleteTenantInput = DeleteTenantInput(id: TenantId)

  /** One page of tenants together with the size of the whole table. */
  datatype ListTenantOutput = ListTenantOutput(tenants: seq<Tenant>, totalCount: nat)

  datatype CreateStaffInput = CreateStaffInput(
    tenantId: TenantId,
    role: StaffRole,
    authUid: string,
    displayName: string,
    imagePath: string,
    email: string)

  /** Each absent field leaves the stored value alone. */
  datatype UpdateStaffInput = UpdateStaffInput(
    id: StaffId,
    role: Option<StaffRole>,
    displayName: Option<string>,
    imagePath: Option<string>,
    email: Option<string>)

  datatype GetStaffInput = GetStaffInput(id: Option<StaffId>, authUid: Option<string>, withTenant: bool)

  datatype ListStaffInput = ListStaffInput(tenantId: Option<TenantId>, limit: Option<nat>, offset: Option<nat>)

  datatype DeleteStaffInput = DeleteStaffInput(id: StaffId)

  /** One page of staff members together with the number of staff members
      the tenant filter admits. */
  datatype ListStaffOutput = ListStaffOutput(staff: seq<Staff>, totalCount: nat)
}
