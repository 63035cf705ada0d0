/** The tenant use cases (crates/usecase/src/interactor/tenant.rs) over the
    tenant adapter. Each repository call that can fail has its own `fault`
    parameter; the clock reading `now` and the fresh identifier that
    `Tenant::new` would draw are parameters too. */
module TenantUsecases {
  import opened Prelude
  import opened Errors
  import opened Tenants
  import opened RepositoryQueries
  import opened Tables
  import opened TenantDatabase
  import opened UsecaseIo

  class TenantInteractor {
    const repository: TenantRepositoryImpl

    ghost predicate Valid()
      reads repository
    {
      repository.Valid()
    }

    constructor (repository: TenantRepositoryImpl)
      ensures this.repository == repository
    {
      this.repository := repository;
    }

    /** `get`: the tenant stored under the id (without tags), or absence. */
    function Get(input: GetTenantInput, fault: Option<string>): (r: Result<Option<Tenant>, DomainError>)
      reads repository
      ensures fault.Some? ==> r == Err(DbError(fault.value))
      ensures fault.None? ==> r.Ok? && (r.value.Some? <==> HasId(repository.rows, input.id.AsStr()))
      ensures r.Ok? && r.value.Some? ==>
                exists row | row in repository.rows :: row.id == input.id.AsStr() && r.value.value == ToTenant(row)
      ensures r.Ok? && r.value.Some? ==> r.value.value.id == input.id && r.value.value.tags == []
    {
      repository.Get(GetTenantQuery(Some(input.id)), fault)
    }

    /** `list`: one page of tenants and the number of all tenants; a failure
        of either statement fails the whole call. */
    function List(input: ListTenantInput, listFault: Option<string>, countFault: Option<string>)
      : (r: Result<ListTenantOutput, DomainError>)
      reads repository
      ensures listFault.Some? ==> r == Err(DbError(listFault.value))
      ensures listFault.None? && countFault.Some? ==> r == Err(DbError(countFault.value))
      ensures listFault.None? && countFault.None? ==> r.Ok?
      ensures r.Ok? ==> r.value.totalCount == |repository.rows|
      ensures r.Ok? ==> exists sorted :: SortedDescOf(sorted, repository.rows, RowCreatedAt) &&
                                         r.value.tenants == MapSeq(Page(sorted, input.limit, input.offset), ToTenant)
      ensures r.Ok? ==> |r.value.tenants| <= r.value.totalCount
      ensures r.Ok? && input.limit.Some? ==> |r.value.tenants| <= input.limit.value
      ensures r.Ok? && input.limit.None? && Skipped(input.offset) == 0 ==> |r.value.tenants| == r.value.totalCount
      ensures r.Ok? ==> forall i, j :: 0 <= i < j < |r.value.tenants| ==> r.value.tenants[i].createdAt >= r.value.tenants[j].createdAt
    {
      var query := ListTenantQuery(input.limit, input.offset);
      match repository.List(query, listFault)
      case Err(e) => Err(e)
      case Ok(tenants) =>
        match repository.Count(query, countFault)
        case Err(e) => Err(e)
        case Ok(total) =>
          PageSizeBound(|repository.rows|, query.limit, query.offset);
          Ok(ListTenantOutput(tenants, total))
    }

    /** `create`: a new tenant named as asked, created and updated at `now`,
        stored and returned. */
    method Create(input: CreateTenantInput, freshId: TenantId, now: int, fault: Option<string>)
      returns (r: Result<Tenant, DomainError>)
      requires Valid()
      modifies repository
      ensures Valid()
      ensures r.Err? ==> repository.rows == old(repository.rows)
      ensures fault.Some? ==> r == Err(DbError(fault.value))
      ensures fault.None? && !HasId(old(repository.rows), freshId.AsStr()) ==> r.Ok?
      ensures r.Ok? ==> r.value.id == freshId && r.value.name == input.name && r.value.tags == []
      ensures r.Ok? ==> r.value.createdAt == now && r.value.updatedAt == now
      ensures r.Ok? ==> repository.rows == old(repository.rows) + [RowOf(r.value)]
      ensures r.Ok? ==> Get(GetTenantInput(freshId), None) == Ok(Some(r.value))
    {
      var tenant := Tenant.New(freshId, input.name, now);
      var stored := repository.Create(tenant, fault);
      if stored.Err? {
        return Err(stored.error);
      }
      r := Ok(tenant);
    }

    /** `update`: reads the tenant, fails with "tenant not found" when it is
        absent, applies `Tenant::update` at `now`, writes it back and
        returns it. */
    method Update(input: UpdateTenantInput, now: int, getFault: Option<string>, writeFault: Option<string>)
      returns (r: Result<Tenant, DomainError>)
      requires Valid()
      modifies repository
      ensures Valid()
      ensures r.Err? ==> repository.rows == old(repository.rows)
      ensures getFault.Some? ==> r == Err(DbError(getFault.value))
      ensures getFault.None? && !HasId(old(repository.rows), input.id.AsStr()) ==> r == Err(TenantNotFound())
      ensures getFault.None? && HasId(old(repository.rows), input.id.AsStr()) && writeFault.Some? ==>
                r == Err(DbError(writeFault.value))
      ensures getFault.None? && HasId(old(repository.rows), input.id.AsStr()) && writeFault.None? ==> r.Ok?
      ensures r.Ok? ==>
                var before := old(Get(GetTenantInput(input.id), None)).value.value;
                && r.value.id == input.id
                && r.value.name == input.name.GetOr(before.name)
                && r.value.updatedAt == now
                && r.value.createdAt == before.createdAt && r.value.tags == []
      ensures r.Ok? ==> repository.rows == ApplyUpdate(old(repository.rows), r.value)
      ensures r.Ok? ==> Get(GetTenantInput(input.id), None) == Ok(Some(r.value))
    {
      var found := repository.Get(GetTenantQuery(Some(input.id)), getFault);
      if found.Err? {
        return Err(found.error);
      }
      if found.value.None? {
        return Err(TenantNotFound());
      }
      var tenant := found.value.value;
      ghost var row := FindById(repository.rows, input.id.AsStr()).value;
      tenant := tenant.Update(input.name, now);
      var written := repository.Update(tenant, writeFault);
      if written.Err? {
        return Err(written.error);
      }
      FindAfterUpdate(old(repository.rows), row, tenant);
      r := Ok(tenant);
    }

    /** `delete`: removes the tenant; deleting an absent tenant succeeds. */
    method Delete(input: DeleteTenantInput, fault: Option<string>) returns (r: Result<(), DomainError>)
      requires Valid()
      modifies repository
      ensures Valid()
      ensures fault.Some? ==> r == Err(DbError(fault.value)) && repository.rows == old(repository.rows)
      ensures fault.None? ==> r == Ok(()) && repository.rows == WithoutId(old(repository.rows), input.id.AsStr())
      ensures r.Ok? ==> Get(GetTenantInput(input.id), None) == Ok(None)
    {
      r := repository.Delete(input.id, fault);
    }
  }
}
