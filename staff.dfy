/** Staff members (crates/domain/src/model/staff.rs). A fresh UUID
    (`StaffId::new`) is a parameter of the constructor. */
module Staffs {
  import opened Prelude
  import opened StaffRoles
  import opened Tenants

  /** Opaque wrapper around the staff member's identifier string. */
  datatype StaffId = StaffId(value: string) {

    static function FromString(s: string): (id: StaffId)
      ensures id.AsStr() == s
    {
      StaffId(s)
    }

    function AsStr(): string {
      value
    }
  }

  lemma StaffIdRoundTrip(s: string, t: string, id: StaffId)
    ensures StaffId.FromString(s) == StaffId.FromString(t) <==> s == t
    ensures StaffId.FromString(id.AsStr()) == id
  {
  }

  /** A staff member. `imageUrl` (computed) and `tenant` (loaded on demand)
      are transient: they are never written to the store. */
  datatype Staff = Staff(
    id: StaffId,
    tenantId: TenantId,
    role: StaffRole,
    authUid: string,
    displayName: string,
    imagePath: string,
    email: string,
    createdAt: int,
    updatedAt: int,
    imageUrl: Option<string>,
    tenant: Option<Tenant>)
  {

    /** `Staff::new`: the given fields verbatim, created and updated at
        `now`, with neither transient field loaded. */
    static function New(id: StaffId, tenantId: TenantId, role: StaffRole, authUid: string,
                        displayName: string, imagePath: string, email: string, now: int): (s: Staff)
      ensures s.id == id && s.tenantId == tenantId && s.role == role && s.authUid == authUid
      ensures s.displayName == displayName && s.imagePath == imagePath && s.email == email
      ensures s.createdAt == now && s.updatedAt == now
      ensures s.imageUrl.None? && s.tenant.None?
    {
      Staff(id, tenantId, role, authUid, displayName, imagePath, email, now, now, None, None)
    }

    /** `set_image_url` (`&mut self`): the url is attached and nothing else changes. */
    function SetImageUrl(url: string): (s: Staff)
      ensures s.imageUrl == Some(url)
      ensures s.(imageUrl := imageUrl) == this
    {
      this.(imageUrl := Some(url))
    }

    /** `set_tenant` (`&mut self`): the tenant snapshot is attached and
        nothing else changes. */
    function SetTenant(t: Tenant): (s: Staff)
      ensures s.tenant == Some(t)
      ensures s.(tenant := tenant) == this
    {
      this.(tenant := Some(t))
    }

    predicate IsAdmin() {
      role.IsAdmin()
    }
  }

  /** A staff member is an administrator exactly when its role is `Admin`,
      whatever transient fields are attached. */
  lemma IsAdminIffAdminRole(s: Staff, url: string, t: Tenant)
    ensures s.IsAdmin() <==> s.role == Admin
    ensures s.SetImageUrl(url).IsAdmin() == s.IsAdmin()
    ensures s.SetTenant(t).IsAdmin() == s.IsAdmin()
  {
  }
}
