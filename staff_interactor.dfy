/** The staff use cases (crates/usecase/src/interactor/staff.rs) over the
    staff adapter. Each repository call that can fail has its own `fault`
    parameter; the clock reading `now` and the fresh identifier that
    `Staff::new` would draw are parameters too. */
module StaffUsecases {
  import opened Prelude
  import opened Errors
  import opened StaffRoles
  import opened Tenants
  import opened Staffs
  import opened RepositoryQueries
  import opened Tables
  import opened StaffDatabase
  import opened UsecaseIo

  /** The lookup `update` performs: by id alone, no tenant. */
  function ByIdQuery(id: StaffId): (q: GetStaffQuery)
    ensures q.id == Some(id) && q.authUid.None? && !q.withTenant
  {
    DefaultGetStaffQuery.(id := Some(id))
  }

  class StaffInteractor {
    const repository: StaffRepositoryImpl

    ghost predicate Valid()
      reads repository
    {
      repository.Valid()
    }

    constructor (repository: StaffRepositoryImpl)
      ensures this.repository == repository
    {
      this.repository := repository;
    }

    /** `get`: the input's keys become the query unchanged. With neither key
        the answer is absence; a staff member found matches every key given
        and comes without its tenant, whatever `withTenant` asked. */
    function Get(input: GetStaffInput, fault: Option<string>): (r: Result<Option<Staff>, DomainError>)
      reads repository
      ensures input.id.None? && input.authUid.None? ==> r == Ok(None)
      ensures (input.id.Some? || input.authUid.Some?) && fault.Some? ==> r == Err(DbError(fault.value))
      ensures (input.id.Some? || input.authUid.Some?) && fault.None? ==>
                r.Ok? && (r.value.None? <==> forall row | row in repository.rows ::
                                               !KeysMatch(row, GetStaffQuery(input.id, input.authUid, input.withTenant)))
      ensures r.Ok? && r.value.Some? ==>
                exists row | row in repository.rows :: KeysMatch(row, GetStaffQuery(input.id, input.authUid, input.withTenant)) &&
                                                       r.value.value == ToStaff(row)
      ensures r.Ok? && r.value.Some? && input.id.Some? ==> r.value.value.id == input.id.value
      ensures r.Ok? && r.value.Some? && input.authUid.Some? ==> r.value.value.authUid == input.authUid.value
      ensures r.Ok? && r.value.Some? ==> r.value.value.tenant.None? && r.value.value.imageUrl.None?
    {
      repository.Get(GetStaffQuery(input.id, input.authUid, input.withTenant), fault)
    }

    /** `list`: one page of staff members and the number of staff members
        the tenant filter admits; a failure of either statement fails the
        whole call. */
    function List(input: ListStaffInput, listFault: Option<string>, countFault: Option<string>)
      : (r: Result<ListStaffOutput, DomainError>)
      reads repository
      ensures listFault.Some? ==> r == Err(DbError(listFault.value))
      ensures listFault.None? && countFault.Some? ==> r == Err(DbError(countFault.value))
      ensures listFault.None? && countFault.None? ==> r.Ok?
      ensures r.Ok? ==> r.value.totalCount == |Matching(repository.rows, input.tenantId)|
      ensures r.Ok? ==> exists sorted :: SortedDescOf(sorted, Matching(repository.rows, input.tenantId), RowCreatedAt) &&
                                         r.value.staff == MapSeq(Page(sorted, input.limit, input.offset), ToStaff)
      ensures r.Ok? ==> |r.value.staff| <= r.value.totalCount
      ensures r.Ok? && input.limit.Some? ==> |r.value.staff| <= input.limit.value
      ensures r.Ok? && input.limit.None? && Skipped(input.offset) == 0 ==> |r.value.staff| == r.value.totalCount
      ensures r.Ok? && input.tenantId.Some? ==> forall s | s in r.value.staff :: s.tenantId == input.tenantId.value
      ensures r.Ok? ==> forall i, j :: 0 <= i < j < |r.value.staff| ==> r.value.staff[i].createdAt >= r.value.staff[j].createdAt
    {
      var query := ListStaffQuery(input.tenantId, input.limit, input.offset);
      match repository.List(query, listFault)
      case Err(e) => Err(e)
      case Ok(staff) =>
        match repository.Count(query, countFault)
        case Err(e) => Err(e)
        case Ok(total) =>
          PageSizeBound(|Matching(repository.rows, input.tenantId)|, query.limit, query.offset);
          Ok(ListStaffOutput(staff, total))
    }

    /** `create`: a new staff member with the input's fields, created and
        updated at `now`, stored and returned. */
    method Create(input: CreateStaffInput, freshId: StaffId, now: int, fault: Option<string>)
      returns (r: Result<Staff, DomainError>)
      requires Valid()
      modifies repository
      ensures Valid()
      ensures r.Err? ==> repository.rows == old(repository.rows)
      ensures fault.Some? ==> r == Err(DbError(fault.value))
      ensures fault.None? && !HasId(old(repository.rows), freshId.AsStr()) ==> r.Ok?
      ensures r.Ok? ==> r.value.id == freshId && r.value.tenantId == input.tenantId && r.value.role == input.role
      ensures r.Ok? ==> r.value.authUid == input.authUid && r.value.displayName == input.displayName
      ensures r.Ok? ==> r.value.imagePath == input.imagePath && r.value.email == input.email
      ensures r.Ok? ==> r.value.createdAt == now && r.value.updatedAt == now
      ensures r.Ok? ==> r.value.imageUrl.None? && r.value.tenant.None?
      ensures r.Ok? ==> repository.rows == old(repository.rows) + [RowOf(r.value)]
      ensures r.Ok? ==> Get(GetStaffInput(Some(freshId), None, false), None) == Ok(Some(r.value))
    {
      var staff := Staff.New(freshId, input.tenantId, input.role, input.authUid, input.displayName,
                             input.imagePath, input.email, now);
      var stored := repository.Create(staff, fault);
      if stored.Err? {
        return Err(stored.error);
      }
      r := Ok(staff);
    }

    /** `update`: reads the staff member by id, fails with "staff not found"
        when it is absent, replaces each field the input carries, stamps
        `now`, writes it back and returns it. */
    method Update(input: UpdateStaffInput, now: int, getFault: Option<string>, writeFault: Option<string>)
      returns (r: Result<Staff, DomainError>)
      requires Valid()
      modifies repository
      ensures Valid()
      ensures r.Err? ==> repository.rows == old(repository.rows)
      ensures getFault.Some? ==> r == Err(DbError(getFault.value))
      ensures getFault.None? && !HasId(old(repository.rows), input.id.AsStr()) ==> r == Err(StaffNotFound())
      ensures getFault.None? && HasId(old(repository.rows), input.id.AsStr()) && writeFault.Some? ==>
                r == Err(DbError(writeFault.value))
      ensures getFault.None? && HasId(old(repository.rows), input.id.AsStr()) && writeFault.None? ==> r.Ok?
      ensures r.Ok? ==>
                var before := old(repository.Get(ByIdQuery(input.id), None)).value.value;
                && r.value.id == input.id
                && r.value.role == input.role.GetOr(before.role)
                && r.value.displayName == input.displayName.GetOr(before.displayName)
                && r.value.imagePath == input.imagePath.GetOr(before.imagePath)
                && r.value.email == input.email.GetOr(before.email)
                && r.value.updatedAt == now
                && r.value.(role := before.role, displayName := before.displayName, imagePath := before.imagePath,
                            email := before.email, updatedAt := before.updatedAt) == before
      ensures r.Ok? ==> repository.rows == ApplyUpdate(old(repository.rows), r.value)
      ensures r.Ok? ==> Get(GetStaffInput(Some(input.id), None, false), None) == Ok(Some(r.value))
    {
      var found := repository.Get(ByIdQuery(input.id), getFault);
      if found.Err? {
        return Err(found.error);
      }
      if found.value.None? {
        assert !HasId(repository.rows, input.id.AsStr()) by {
          forall row | row in repository.rows ensures row.id != input.id.AsStr() {
            assert !KeysMatch(row, ByIdQuery(input.id));
          }
        }
        return Err(StaffNotFound());
      }
      var staff := found.value.value;
      ghost var row := FirstMatch(repository.rows, ByIdQuery(input.id)).value;
      if input.role.Some? {
        staff := staff.(role := input.role.value);
      }
      if input.displayName.Some? {
        staff := staff.(displayName := input.displayName.value);
      }
      if input.imagePath.Some? {
        staff := staff.(imagePath := input.imagePath.value);
      }
      if input.email.Some? {
        staff := staff.(email := input.email.value);
      }
      staff := staff.(updatedAt := now);
      var written := repository.Update(staff, writeFault);
      if written.Err? {
        return Err(written.error);
      }
      LookupAfterUpdate(old(repository.rows), row, staff, ByIdQuery(input.id));
      UpdatedRowReadsBack(row, staff);
      r := Ok(staff);
    }

    /** `delete`: removes the staff member; deleting an absent one succeeds. */
    method Delete(input: DeleteStaffInput, fault: Option<string>) returns (r: Result<(), DomainError>)
      requires Valid()
      modifies repository
      ensures Valid()
      ensures fault.Some? ==> r == Err(DbError(fault.value)) && repository.rows == old(repository.rows)
      ensures fault.None? ==> r == Ok(()) && repository.rows == WithoutId(old(repository.rows), input.id.AsStr())
      ensures r.Ok? ==> Get(GetStaffInput(Some(input.id), None, false), None) == Ok(None)
    {
      r := repository.Delete(input.id, fault);
    }
  }
}
