/** The persistence adapter for tenants
    (crates/infrastructure/src/database/tenant.rs): the `tenants` table as a
    sequence of rows. Tags have no table here: they are neither written nor
    read back. A driver failure is the parameter `fault`. */
module TenantDatabase {
  import opened Prelude
  import opened Errors
  import opened Tenants
  import opened RepositoryQueries
  import opened Tables

  /** One row of `tenants`. */
  datatype TenantRow = TenantRow(id: string, name: string, createdAt: int, updatedAt: int)

  function RowId(row: TenantRow): string {
    row.id
  }

  function RowCreatedAt(row: TenantRow): int {
    row.createdAt
  }

  /** `From<TenantRow> for Tenant`: the columns, and no tags. */
  function ToTenant(row: TenantRow): (t: Tenant)
    ensures t.id.AsStr() == row.id && t.name == row.name
    ensures t.createdAt == row.createdAt && t.updatedAt == row.updatedAt
    ensures t.tags == []
  {
    Tenant(TenantId.FromString(row.id), row.name, [], row.createdAt, row.updatedAt)
  }

  /** The columns INSERT binds from a tenant; its tags are dropped. */
  function RowOf(t: Tenant): (row: TenantRow)
    ensures row.id == t.id.AsStr() && row.name == t.name
    ensures row.createdAt == t.createdAt && row.updatedAt == t.updatedAt
  {
    TenantRow(t.id.AsStr(), t.name, t.createdAt, t.updatedAt)
  }

  /** A stored tenant reads back as itself without its tags. */
  lemma StoredTenantReadsBack(t: Tenant)
    ensures ToTenant(RowOf(t)) == t.(tags := [])
    ensures t.tags == [] ==> ToTenant(RowOf(t)) == t
  {
  }

  predicate HasId(rows: seq<TenantRow>, id: string) {
    exists row | row in rows :: row.id == id
  }

  /** `SELECT * FROM tenants WHERE id = $1` with `fetch_optional`. */
  function FindById(rows: seq<TenantRow>, id: string): (r: Option<TenantRow>)
    ensures r.Some? ==> r.value in rows && r.value.id == id
    ensures r.None? <==> !HasId(rows, id)
  {
    if rows == [] then None
    else if rows[0].id == id then Some(rows[0])
    else FindById(rows[1..], id)
  }

  /** Under the primary key, the row found is the one holding the id. */
  lemma FindUnique(rows: seq<TenantRow>, row: TenantRow)
    requires DistinctKeys(rows, RowId) && row in rows
    ensures FindById(rows, row.id) == Some(row)
  {
    var found := FindById(rows, row.id).value;
    var i :| 0 <= i < |rows| && rows[i] == found;
    var j :| 0 <= j < |rows| && rows[j] == row;
    assert RowId(rows[i]) == RowId(rows[j]);
  }

  /** A row appended under a new key is what a lookup by that key finds. */
  lemma {:induction false} FindAppended(rows: seq<TenantRow>, row: TenantRow)
    requires !HasId(rows, row.id)
    ensures FindById(rows + [row], row.id) == Some(row)
  {
    if rows != [] {
      assert rows[0] in rows;
      assert (rows + [row])[1..] == rows[1..] + [row];
      assert forall x | x in rows[1..] :: x in rows;
      FindAppended(rows[1..], row);
    }
  }

  /** ORDER BY created_at DESC over the whole table. */
  function SortedRows(rows: seq<TenantRow>): (r: seq<TenantRow>)
    ensures multiset(r) == multiset(rows) && |r| == |rows|
    ensures NonIncreasing(r, RowCreatedAt)
  {
    var sorted := SortDesc(rows, RowCreatedAt);
    assert |sorted| == |multiset(sorted)|;
    sorted
  }

  /** The rows `list` returns: newest first, then OFFSET and LIMIT. Rows
      with equal creation times may come in any order, so the page is the
      page of some such ordering. */
  function ListRows(rows: seq<TenantRow>, query: ListTenantQuery): (page: seq<TenantRow>)
    ensures exists sorted :: SortedDescOf(sorted, rows, RowCreatedAt) && page == Page(sorted, query.limit, query.offset)
    ensures |page| == PageSize(|rows|, query.limit, query.offset)
    ensures NonIncreasing(page, RowCreatedAt)
    ensures multiset(page) <= multiset(rows)
  {
    var sorted := SortedRows(rows);
    PageOfSorted(sorted, query.limit, query.offset, RowCreatedAt);
    assert SortedDescOf(sorted, rows, RowCreatedAt);
    Page(sorted, query.limit, query.offset)
  }

  /** The listed tenants are newest first. */
  lemma ListedNewestFirst(rows: seq<TenantRow>, query: ListTenantQuery)
    ensures var listed := MapSeq(ListRows(rows, query), ToTenant);
      forall i, j :: 0 <= i < j < |listed| ==> listed[i].createdAt >= listed[j].createdAt
  {
    assert NonIncreasing(ListRows(rows, query), RowCreatedAt);
  }

  /** The listed tenants are stored tenants, each at most as often as
      stored; without LIMIT and OFFSET all of them. */
  lemma ListedFromTable(rows: seq<TenantRow>, query: ListTenantQuery)
    ensures var listed := MapSeq(ListRows(rows, query), ToTenant);
      && multiset(listed) <= multiset(MapSeq(rows, ToTenant))
      && (query.limit.None? && Skipped(query.offset) == 0 ==> multiset(listed) == multiset(MapSeq(rows, ToTenant)))
  {
    var sorted := SortedRows(rows);
    MapPage(sorted, query.limit, query.offset, ToTenant);
    MapPreservesPermutation(sorted, rows, ToTenant);
    if query.limit.None? && Skipped(query.offset) == 0 {
      PageUnbounded(sorted, query.offset);
    }
  }

  /** `UPDATE tenants SET name, updated_at WHERE id`: the identity and the
      creation time keep their stored values. */
  function Overwrite(row: TenantRow, t: Tenant): (r: TenantRow)
    ensures r.name == t.name && r.updatedAt == t.updatedAt
    ensures r.id == row.id && r.createdAt == row.createdAt
  {
    row.(name := t.name, updatedAt := t.updatedAt)
  }

  /** The table after the UPDATE: rows holding the id are overwritten, the
      others are unchanged. */
  function ApplyUpdate(rows: seq<TenantRow>, t: Tenant): (r: seq<TenantRow>)
    ensures |r| == |rows|
    ensures forall i :: 0 <= i < |rows| && rows[i].id == t.id.AsStr() ==> r[i] == Overwrite(rows[i], t)
    ensures forall i :: 0 <= i < |rows| && rows[i].id != t.id.AsStr() ==> r[i] == rows[i]
  {
    MapSeq(rows, (row: TenantRow) => if row.id == t.id.AsStr() then Overwrite(row, t) else row)
  }

  /** After an update, a lookup by the tenant's id finds the overwritten
      row, which reads back as the tenant written (without tags) when its
      creation time is the stored one. */
  lemma {:induction false} FindAfterUpdate(rows: seq<TenantRow>, row: TenantRow, t: Tenant)
    requires DistinctKeys(rows, RowId)
    requires row in rows && row.id == t.id.AsStr()
    ensures FindById(ApplyUpdate(rows, t), row.id) == Some(Overwrite(row, t))
    ensures t.createdAt == row.createdAt ==> ToTenant(Overwrite(row, t)) == t.(tags := [])
  {
    var updated := ApplyUpdate(rows, t);
    var k :| 0 <= k < |rows| && rows[k] == row;
    assert updated[k] == Overwrite(row, t);
    forall i, j | 0 <= i < j < |updated| ensures RowId(updated[i]) != RowId(updated[j]) {
      assert RowId(updated[i]) == RowId(rows[i]) && RowId(updated[j]) == RowId(rows[j]);
    }
    FindUnique(updated, Overwrite(row, t));
  }

  /** Updating an id no row holds changes nothing. */
  lemma UpdateMissingIdIsNoOp(rows: seq<TenantRow>, t: Tenant)
    requires !HasId(rows, t.id.AsStr())
    ensures ApplyUpdate(rows, t) == rows
  {
    var r := ApplyUpdate(rows, t);
    forall i | 0 <= i < |rows| ensures r[i] == rows[i] {
      assert rows[i] in rows;
    }
  }

  /** `DELETE FROM tenants WHERE id = $1`. */
  function WithoutId(rows: seq<TenantRow>, id: string): (r: seq<TenantRow>)
    ensures !HasId(r, id)
    ensures forall row | row in rows && row.id != id :: row in r
    ensures forall row | row in r :: row in rows
    ensures !HasId(rows, id) ==> r == rows
  {
    Filter(rows, (row: TenantRow) => row.id != id)
  }

  /** Deleting twice leaves the table as deleting once does. */
  lemma DeleteIdempotent(rows: seq<TenantRow>, id: string)
    ensures WithoutId(WithoutId(rows, id), id) == WithoutId(rows, id)
  {
  }

  /** The error an INSERT under an existing primary key gets from the
      database. Its text is the driver's and is not modelled. */
  const DuplicateKey := "duplicate key value violates unique constraint"

  /** `TenantRepositoryImpl`: the adapter over the `tenants` table. */
  class TenantRepositoryImpl {
    var rows: seq<TenantRow>

    /** The primary key: no two rows share an id. */
    ghost predicate Valid()
      reads this
    {
      DistinctKeys(rows, RowId)
    }

    constructor (rows: seq<TenantRow>)
      requires DistinctKeys(rows, RowId)
      ensures Valid() && this.rows == rows
    {
      this.rows := rows;
    }

    /** `get`: no id means absence without touching the database; otherwise
        the tenant stored under the id (without tags), or absence. */
    function Get(query: GetTenantQuery, fault: Option<string>): (r: Result<Option<Tenant>, DomainError>)
      reads this
      ensures query.id.None? ==> r == Ok(None)
      ensures query.id.Some? && fault.Some? ==> r == Err(DbError(fault.value))
      ensures query.id.Some? && fault.None? ==> r.Ok? && (r.value.None? <==> !HasId(rows, query.id.value.AsStr()))
      ensures r.Ok? && r.value.Some? ==> exists row | row in rows :: row.id == query.id.value.AsStr() && r.value.value == ToTenant(row)
      ensures r.Ok? && r.value.Some? ==> r.value.value.id == query.id.value && r.value.value.tags == []
    {
      if query.id.None? then Ok(None)
      else if fault.Some? then Err(DbError(fault.value))
      else
        match FindById(rows, query.id.value.AsStr())
        case None => Ok(None)
        case Some(row) => Ok(Some(ToTenant(row)))
    }

    /** `list`: every tenant, newest first, after OFFSET and LIMIT; without
        them exactly the stored tenants. */
    function List(query: ListTenantQuery, fault: Option<string>): (r: Result<seq<Tenant>, DomainError>)
      reads this
      ensures fault.Some? ==> r == Err(DbError(fault.value))
      ensures fault.None? ==> r.Ok?
      ensures r.Ok? ==> exists sorted :: SortedDescOf(sorted, rows, RowCreatedAt) &&
                                         r.value == MapSeq(Page(sorted, query.limit, query.offset), ToTenant)
      ensures r.Ok? ==> |r.value| == PageSize(|rows|, query.limit, query.offset)
      ensures r.Ok? ==> forall i, j :: 0 <= i < j < |r.value| ==> r.value[i].createdAt >= r.value[j].createdAt
      ensures r.Ok? ==> multiset(r.value) <= multiset(MapSeq(rows, ToTenant))
      ensures r.Ok? && query.limit.None? && Skipped(query.offset) == 0 ==>
                multiset(r.value) == multiset(MapSeq(rows, ToTenant))
    {
      if fault.Some? then Err(DbError(fault.value))
      else
        ListedNewestFirst(rows, query);
        ListedFromTable(rows, query);
        Ok(MapSeq(ListRows(rows, query), ToTenant))
    }

    /** `count`: the number of rows in the table; the query plays no part. */
    function Count(query: ListTenantQuery, fault: Option<string>): (r: Result<nat, DomainError>)
      reads this
      ensures fault.Some? ==> r == Err(DbError(fault.value))
      ensures fault.None? ==> r == Ok(|rows|)
    {
      if fault.Some? then Err(DbError(fault.value)) else Ok(|rows|)
    }

    /** `create`: INSERT of the four columns. An id already in the table
        violates the primary key and is reported like any driver error. */
    method Create(tenant: Tenant, fault: Option<string>) returns (r: Result<(), DomainError>)
      requires Valid()
      modifies this
      ensures Valid()
      ensures fault.Some? ==> r == Err(DbError(fault.value)) && rows == old(rows)
      ensures fault.None? && HasId(old(rows), tenant.id.AsStr()) ==>
                r.Err? && r.error.code == "DB_ERROR" && r.error.category == Internal && rows == old(rows)
      ensures fault.None? && !HasId(old(rows), tenant.id.AsStr()) ==>
                r == Ok(()) && rows == old(rows) + [RowOf(tenant)]
      ensures r.Ok? ==> Get(GetTenantQuery(Some(tenant.id)), None) == Ok(Some(tenant.(tags := [])))
    {
      if fault.Some? {
        return Err(DbError(fault.value));
      }
      if HasId(rows, tenant.id.AsStr()) {
        return Err(DbError(DuplicateKey));
      }
      ghost var before := rows;
      rows := rows + [RowOf(tenant)];
      forall i, j | 0 <= i < j < |rows| ensures RowId(rows[i]) != RowId(rows[j]) {
        if j == |rows| - 1 {
          assert rows[i] in before;
        } else {
          assert rows[i] == before[i] && rows[j] == before[j];
        }
      }
      FindAppended(before, RowOf(tenant));
      StoredTenantReadsBack(tenant);
      r := Ok(());
    }

    /** `update`: overwrites name and update time of the row holding the
        tenant's id; no row holding it is a successful no-op. */
    method Update(tenant: Tenant, fault: Option<string>) returns (r: Result<(), DomainError>)
      requires Valid()
      modifies this
      ensures Valid()
      ensures fault.Some? ==> r == Err(DbError(fault.value)) && rows == old(rows)
      ensures fault.None? ==> r == Ok(()) && rows == ApplyUpdate(old(rows), tenant)
    {
      if fault.Some? {
        return Err(DbError(fault.value));
      }
      ghost var before := rows;
      rows := ApplyUpdate(rows, tenant);
      assert forall i :: 0 <= i < |rows| ==> RowId(rows[i]) == RowId(before[i]);
      r := Ok(());
    }

    /** `delete`: removes the row holding `id`; an absent id is a success. */
    method Delete(id: TenantId, fault: Option<string>) returns (r: Result<(), DomainError>)
      requires Valid()
      modifies this
      ensures Valid()
      ensures fault.Some? ==> r == Err(DbError(fault.value)) && rows == old(rows)
      ensures fault.None? ==> r == Ok(()) && rows == WithoutId(old(rows), id.AsStr())
    {
      if fault.Some? {
        return Err(DbError(fault.value));
      }
      FilterKeepsDistinct(rows, (row: TenantRow) => row.id != id.AsStr(), RowId);
      rows := WithoutId(rows, id.AsStr());
      r := Ok(());
    }
  }
}
