/** The persistence adapter for staff members
    (crates/infrastructure/src/database/staff.rs): the `staffs` table as a
    sequence of rows and what each SQL statement does to it. The SQL text
    and the driver are not modelled; a driver failure is the parameter
    `fault` (`Some(text)` when the driver reports an error with that text). */
module StaffDatabase {
  import opened Prelude
  import opened Errors
  import opened StaffRoles
  import opened Tenants
  import opened Staffs
  import opened RepositoryQueries
  import opened Tables

  /** One row of `staffs`: the nine persisted columns. */
  datatype StaffRow = StaffRow(
    id: string,
    tenantId: string,
    role: string,
    authUid: string,
    displayName: string,
    imagePath: string,
    email: string,
    createdAt: int,
    updatedAt: int)

  function RowId(row: StaffRow): string {
    row.id
  }

  function RowCreatedAt(row: StaffRow): int {
    row.createdAt
  }

  /** `From<StaffRow> for Staff`: columns are copied, the role string is
      parsed leniently, and the transient fields are left unloaded. */
  function ToStaff(row: StaffRow): (s: Staff)
    ensures s.id.AsStr() == row.id && s.tenantId.AsStr() == row.tenantId
    ensures s.role == StaffRole.FromStr(row.role)
    ensures s.authUid == row.authUid && s.displayName == row.displayName
    ensures s.imagePath == row.imagePath && s.email == row.email
    ensures s.createdAt == row.createdAt && s.updatedAt == row.updatedAt
    ensures s.imageUrl.None? && s.tenant.None?
  {
    Staff(StaffId.FromString(row.id), TenantId.FromString(row.tenantId), StaffRole.FromStr(row.role),
          row.authUid, row.displayName, row.imagePath, row.email, row.createdAt, row.updatedAt,
          None, None)
  }

  /** The columns INSERT binds from a staff member; the role is stored by
      name and the transient fields have no column. */
  function RowOf(s: Staff): (row: StaffRow)
    ensures row.id == s.id.AsStr() && row.tenantId == s.tenantId.AsStr() && row.role == s.role.AsStr()
    ensures row.authUid == s.authUid && row.displayName == s.displayName
    ensures row.imagePath == s.imagePath && row.email == s.email
    ensures row.createdAt == s.createdAt && row.updatedAt == s.updatedAt
  {
    StaffRow(s.id.AsStr(), s.tenantId.AsStr(), s.role.AsStr(), s.authUid, s.displayName,
             s.imagePath, s.email, s.createdAt, s.updatedAt)
  }

  /** A stored staff member reads back as itself, minus the transient fields. */
  lemma StoredStaffReadsBack(s: Staff)
    ensures ToStaff(RowOf(s)) == s.(imageUrl := None, tenant := None)
  {
    RoundTrip(s.role);
  }

  /** A role string outside the known names reads back as `Unknown`. */
  lemma UnrecognisedRoleReadsAsUnknown(row: StaffRow)
    requires row.role != "normal" && row.role != "admin"
    ensures ToStaff(row).role == Unknown
  {
  }

  /** Whether some row has the primary key `id`. */
  predicate HasId(rows: seq<StaffRow>, id: string) {
    exists row | row in rows :: row.id == id
  }

  /** The WHERE clause of `get`: every key the query carries must match. */
  predicate KeysMatch(row: StaffRow, query: GetStaffQuery) {
    && (query.id.Some? ==> row.id == query.id.value.AsStr())
    && (query.authUid.Some? ==> row.authUid == query.authUid.value)
  }

  /** `fetch_optional`: a row satisfying the keys, or none when no row does. */
  function FirstMatch(rows: seq<StaffRow>, query: GetStaffQuery): (r: Option<StaffRow>)
    ensures r.Some? ==> r.value in rows && KeysMatch(r.value, query)
    ensures r.None? ==> forall row | row in rows :: !KeysMatch(row, query)
  {
    if rows == [] then None
    else if KeysMatch(rows[0], query) then Some(rows[0])
    else FirstMatch(rows[1..], query)
  }

  /** Under the primary key, a lookup by id alone finds exactly the row
      holding that id. */
  lemma {:induction false} LookupById(rows: seq<StaffRow>, row: StaffRow, query: GetStaffQuery)
    requires DistinctKeys(rows, RowId)
    requires row in rows && query.id == Some(StaffId(row.id)) && query.authUid.None?
    ensures FirstMatch(rows, query) == Some(row)
  {
    var found := FirstMatch(rows, query).value;
    var i :| 0 <= i < |rows| && rows[i] == found;
    var j :| 0 <= j < |rows| && rows[j] == row;
    assert RowId(rows[i]) == RowId(rows[j]);
  }

  /** The tenant filter of `list` and `count` (no filter when absent). */
  predicate InTenant(row: StaffRow, tenantId: Option<TenantId>) {
    tenantId.None? || row.tenantId == tenantId.value.AsStr()
  }

  /** The rows `list` and `count` consider, in table order. */
  function Matching(rows: seq<StaffRow>, tenantId: Option<TenantId>): (r: seq<StaffRow>)
    ensures forall row | row in r :: row in rows && InTenant(row, tenantId)
    ensures forall row | row in rows && InTenant(row, tenantId) :: row in r
    ensures forall row | row in rows :: multiset(r)[row] == if InTenant(row, tenantId) then multiset(rows)[row] else 0
  {
    Filter(rows, (row: StaffRow) => InTenant(row, tenantId))
  }

  /** ORDER BY created_at DESC over the matching rows. */
  function SortedMatching(rows: seq<StaffRow>, tenantId: Option<TenantId>): (r: seq<StaffRow>)
    ensures multiset(r) == multiset(Matching(rows, tenantId))
    ensures |r| == |Matching(rows, tenantId)|
    ensures NonIncreasing(r, RowCreatedAt)
  {
    var sorted := SortDesc(Matching(rows, tenantId), RowCreatedAt);
    assert |sorted| == |multiset(sorted)|;
    sorted
  }

  /** The rows `list` returns: the matching rows by creation time, newest
      first, then OFFSET and LIMIT. Rows with equal creation times may come
      in any order, so the page is the page of some such ordering. */
  function ListRows(rows: seq<StaffRow>, query: ListStaffQuery): (page: seq<StaffRow>)
    ensures exists sorted :: SortedDescOf(sorted, Matching(rows, query.tenantId), RowCreatedAt) &&
                             page == Page(sorted, query.limit, query.offset)
    ensures |page| == PageSize(|Matching(rows, query.tenantId)|, query.limit, query.offset)
    ensures NonIncreasing(page, RowCreatedAt)
    ensures multiset(page) <= multiset(Matching(rows, query.tenantId))
    ensures query.limit.None? && Skipped(query.offset) == 0 ==>
              multiset(page) == multiset(Matching(rows, query.tenantId))
  {
    var sorted := SortedMatching(rows, query.tenantId);
    PageOfSorted(sorted, query.limit, query.offset, RowCreatedAt);
    var page := Page(sorted, query.limit, query.offset);
    assert SortedDescOf(sorted, Matching(rows, query.tenantId), RowCreatedAt);
    assert query.limit.None? && Skipped(query.offset) == 0 ==> page == sorted by {
      if query.limit.None? && Skipped(query.offset) == 0 {
        PageUnbounded(sorted, query.offset);
      }
    }
    page
  }

  /** UPDATE ... SET role, display_name, image_path, email, updated_at: the
      identity, tenant, auth identifier and creation time keep their values. */
  function Overwrite(row: StaffRow, s: Staff): (r: StaffRow)
    ensures r.role == s.role.AsStr() && r.displayName == s.displayName
    ensures r.imagePath == s.imagePath && r.email == s.email && r.updatedAt == s.updatedAt
    ensures r.id == row.id && r.tenantId == row.tenantId && r.authUid == row.authUid
    ensures r.createdAt == row.createdAt
  {
    row.(role := s.role.AsStr(), displayName := s.displayName, imagePath := s.imagePath,
         email := s.email, updatedAt := s.updatedAt)
  }

  /** The table after `UPDATE ... WHERE id = staff.id`: the rows holding that
      id are overwritten, every other row is unchanged. */
  function ApplyUpdate(rows: seq<StaffRow>, s: Staff): (r: seq<StaffRow>)
    ensures |r| == |rows|
    ensures forall i :: 0 <= i < |rows| && rows[i].id == s.id.AsStr() ==> r[i] == Overwrite(rows[i], s)
    ensures forall i :: 0 <= i < |rows| && rows[i].id != s.id.AsStr() ==> r[i] == rows[i]
  {
    MapSeq(rows, (row: StaffRow) => if row.id == s.id.AsStr() then Overwrite(row, s) else row)
  }

  /** Updating an id no row holds changes nothing. */
  lemma UpdateMissingIdIsNoOp(rows: seq<StaffRow>, s: Staff)
    requires !HasId(rows, s.id.AsStr())
    ensures ApplyUpdate(rows, s) == rows
  {
    var r := ApplyUpdate(rows, s);
    forall i | 0 <= i < |rows| ensures r[i] == rows[i] {
      assert rows[i] in rows;
    }
  }

  /** An updated row reads back as the staff member written, as long as
      the columns UPDATE leaves alone already held that member's values. */
  lemma UpdatedRowReadsBack(row: StaffRow, s: Staff)
    requires s.id.AsStr() == row.id && s.tenantId.AsStr() == row.tenantId
    requires s.authUid == row.authUid && s.createdAt == row.createdAt
    ensures ToStaff(Overwrite(row, s)) == s.(imageUrl := None, tenant := None)
  {
    RoundTrip(s.role);
  }

  /** Writing back a staff member whose stored role string was not a known
      name stores "unknown" in its place; a known name is kept. */
  lemma UpdateNormalisesRole(row: StaffRow, s: Staff)
    requires s.role == ToStaff(row).role
    ensures row.role == "normal" || row.role == "admin" ==> Overwrite(row, s).role == row.role
    ensures row.role != "normal" && row.role != "admin" ==> Overwrite(row, s).role == "unknown"
  {
  }

  /** After an update, a lookup by the staff member's id finds the
      overwritten row. */
  lemma {:induction false} LookupAfterUpdate(rows: seq<StaffRow>, row: StaffRow, s: Staff, query: GetStaffQuery)
    requires DistinctKeys(rows, RowId)
    requires row in rows && row.id == s.id.AsStr()
    requires query.id == Some(s.id) && query.authUid.None?
    ensures FirstMatch(ApplyUpdate(rows, s), query) == Some(Overwrite(row, s))
  {
    var updated := ApplyUpdate(rows, s);
    var k :| 0 <= k < |rows| && rows[k] == row;
    assert updated[k] == Overwrite(row, s);
    forall i, j | 0 <= i < j < |updated| ensures RowId(updated[i]) != RowId(updated[j]) {
      assert RowId(updated[i]) == RowId(rows[i]) && RowId(updated[j]) == RowId(rows[j]);
    }
    LookupById(updated, Overwrite(row, s), query);
  }

  /** The table after `DELETE ... WHERE id = id`. */
  function WithoutId(rows: seq<StaffRow>, id: string): (r: seq<StaffRow>)
    ensures !HasId(r, id)
    ensures forall row | row in rows && row.id != id :: row in r
    ensures forall row | row in r :: row in rows
    ensures !HasId(rows, id) ==> r == rows
  {
    Filter(rows, (row: StaffRow) => row.id != id)
  }

  /** Deleting twice leaves the table as deleting once does. */
  lemma DeleteIdempotent(rows: seq<StaffRow>, id: string)
    ensures WithoutId(WithoutId(rows, id), id) == WithoutId(rows, id)
  {
  }

  /** A row appended under a new key is what a lookup by that key finds. */
  lemma {:induction false} LookupAppended(rows: seq<StaffRow>, row: StaffRow, query: GetStaffQuery)
    requires !HasId(rows, row.id)
    requires query.id == Some(StaffId(row.id)) && query.authUid.None?
    ensures FirstMatch(rows + [row], query) == Some(row)
  {
    if rows == [] {
    } else {
      assert rows[0] in rows;
      assert (rows + [row])[1..] == rows[1..] + [row];
      assert forall x | x in rows[1..] :: x in rows;
      LookupAppended(rows[1..], row, query);
    }
  }

  /** The error an INSERT under an existing primary key gets from the
      database. Its text is the driver's and is not modelled. */
  const DuplicateKey := "duplicate key value violates unique constraint"

  /** `StaffRepositoryImpl`: the adapter over the `staffs` table. */
  class StaffRepositoryImpl {
    var rows: seq<StaffRow>

    /** The primary key: no two rows share an id. */
    ghost predicate Valid()
      reads this
    {
      DistinctKeys(rows, RowId)
    }

    constructor (rows: seq<StaffRow>)
      requires DistinctKeys(rows, RowId)
      ensures Valid() && this.rows == rows
    {
      this.rows := rows;
    }

    /** `get`: with no key at all the answer is absence, without touching
        the database; otherwise a row matching every given key, or absence
        when none does. The tenant snapshot is never loaded, whatever
        `withTenant` asks. */
    function Get(query: GetStaffQuery, fault: Option<string>): (r: Result<Option<Staff>, DomainError>)
      reads this
      ensures query.id.None? && query.authUid.None? ==> r == Ok(None)
      ensures (query.id.Some? || query.authUid.Some?) && fault.Some? ==> r == Err(DbError(fault.value))
      ensures (query.id.Some? || query.authUid.Some?) && fault.None? ==>
                r.Ok? && (r.value.None? <==> forall row | row in rows :: !KeysMatch(row, query))
      ensures r.Ok? && r.value.Some? ==> exists row | row in rows :: KeysMatch(row, query) && r.value.value == ToStaff(row)
      ensures r.Ok? && r.value.Some? ==> r.value.value.tenant.None? && r.value.value.imageUrl.None?
    {
      if query.id.None? && query.authUid.None? then Ok(None)
      else if fault.Some? then Err(DbError(fault.value))
      else
        match FirstMatch(rows, query)
        case None => Ok(None)
        case Some(row) => Ok(Some(ToStaff(row)))
    }

    /** `list`: the staff members of the tenant (all when no tenant is
        given), newest first, after skipping `offset` and keeping at most
        `limit`; without LIMIT and OFFSET exactly the matching rows. */
    function List(query: ListStaffQuery, fault: Option<string>): (r: Result<seq<Staff>, DomainError>)
      reads this
      ensures fault.Some? ==> r == Err(DbError(fault.value))
      ensures fault.None? ==> r.Ok?
      ensures r.Ok? ==> exists sorted :: SortedDescOf(sorted, Matching(rows, query.tenantId), RowCreatedAt) &&
                                         r.value == MapSeq(Page(sorted, query.limit, query.offset), ToStaff)
      ensures r.Ok? ==> |r.value| == PageSize(|Matching(rows, query.tenantId)|, query.limit, query.offset)
      ensures r.Ok? ==> forall s | s in r.value :: query.tenantId.Some? ==> s.tenantId == query.tenantId.value
      ensures r.Ok? ==> forall i, j :: 0 <= i < j < |r.value| ==> r.value[i].createdAt >= r.value[j].createdAt
      ensures r.Ok? ==> multiset(r.value) <= multiset(MapSeq(Matching(rows, query.tenantId), ToStaff))
      ensures r.Ok? && query.limit.None? && Skipped(query.offset) == 0 ==>
                multiset(r.value) == multiset(MapSeq(Matching(rows, query.tenantId), ToStaff))
    {
      if fault.Some? then Err(DbError(fault.value))
      else
        ListedNewestFirst(rows, query);
        ListedFromMatching(rows, query);
        assert query.tenantId.Some? ==>
                 forall s | s in MapSeq(ListRows(rows, query), ToStaff) :: s.tenantId == query.tenantId.value by {
          if query.tenantId.Some? {
            ListedInTenant(rows, query);
          }
        }
        Ok(MapSeq(ListRows(rows, query), ToStaff))
    }

    /** `count`: the number of rows the tenant filter admits; LIMIT and
        OFFSET play no part. */
    function Count(query: ListStaffQuery, fault: Option<string>): (r: Result<nat, DomainError>)
      reads this
      ensures fault.Some? ==> r == Err(DbError(fault.value))
      ensures fault.None? ==> r == Ok(|Matching(rows, query.tenantId)|)
    {
      if fault.Some? then Err(DbError(fault.value))
      else Ok(|Matching(rows, query.tenantId)|)
    }

    /** `create`: INSERT of the nine columns. An id already in the table
        violates the primary key and is reported like any driver error. */
    method Create(staff: Staff, fault: Option<string>) returns (r: Result<(), DomainError>)
      requires Valid()
      modifies this
      ensures Valid()
      ensures fault.Some? ==> r == Err(DbError(fault.value)) && rows == old(rows)
      ensures fault.None? && HasId(old(rows), staff.id.AsStr()) ==>
                r.Err? && r.error.code == "DB_ERROR" && r.error.category == Internal && rows == old(rows)
      ensures fault.None? && !HasId(old(rows), staff.id.AsStr()) ==>
                r == Ok(()) && rows == old(rows) + [RowOf(staff)]
      ensures r.Ok? ==> Get(GetStaffQuery(Some(staff.id), None, false), None) == Ok(Some(staff.(imageUrl := None, tenant := None)))
    {
      if fault.Some? {
        return Err(DbError(fault.value));
      }
      if HasId(rows, staff.id.AsStr()) {
        return Err(DbError(DuplicateKey));
      }
      ghost var before := rows;
      rows := rows + [RowOf(staff)];
      forall i, j | 0 <= i < j < |rows| ensures RowId(rows[i]) != RowId(rows[j]) {
        if j == |rows| - 1 {
          assert rows[i] in before;
        } else {
          assert rows[i] == before[i] && rows[j] == before[j];
        }
      }
      LookupAppended(before, RowOf(staff), GetStaffQuery(Some(staff.id), None, false));
      StoredStaffReadsBack(staff);
      r := Ok(());
    }

    /** `update`: overwrites the mutable columns of the row holding the
        staff member's id; no row holding it is a successful no-op. */
    method Update(staff: Staff, fault: Option<string>) returns (r: Result<(), DomainError>)
      requires Valid()
      modifies this
      ensures Valid()
      ensures fault.Some? ==> r == Err(DbError(fault.value)) && rows == old(rows)
      ensures fault.None? ==> r == Ok(()) && rows == ApplyUpdate(old(rows), staff)
    {
      if fault.Some? {
        return Err(DbError(fault.value));
      }
      ghost var before := rows;
      rows := ApplyUpdate(rows, staff);
      assert forall i :: 0 <= i < |rows| ==> RowId(rows[i]) == RowId(before[i]);
      r := Ok(());
    }

    /** `delete`: removes the row holding `id`; an absent id is a success. */
    method Delete(id: StaffId, fault: Option<string>) returns (r: Result<(), DomainError>)
      requires Valid()
      modifies this
      ensures Valid()
      ensures fault.Some? ==> r == Err(DbError(fault.value)) && rows == old(rows)
      ensures fault.None? ==> r == Ok(()) && rows == WithoutId(old(rows), id.AsStr())
    {
      if fault.Some? {
        return Err(DbError(fault.value));
      }
      FilterKeepsDistinct(rows, (row: StaffRow) => row.id != id.AsStr(), RowId);
      rows := WithoutId(rows, id.AsStr());
      r := Ok(());
    }
  }

  /** Every listed staff member belongs to the requested tenant. */
  lemma ListedInTenant(rows: seq<StaffRow>, query: ListStaffQuery)
    requires query.tenantId.Some?
    ensures forall s | s in MapSeq(ListRows(rows, query), ToStaff) :: s.tenantId == query.tenantId.value
  {
    var page := ListRows(rows, query);
    var listed := MapSeq(page, ToStaff);
    forall s | s in listed ensures s.tenantId == query.tenantId.value {
      var i :| 0 <= i < |listed| && listed[i] == s;
      var row := page[i];
      assert row in multiset(page);
      assert row in Matching(rows, query.tenantId);
      assert row.tenantId == query.tenantId.value.AsStr();
      assert s == ToStaff(row);
    }
  }

  /** The listed staff members are newest first. */
  lemma ListedNewestFirst(rows: seq<StaffRow>, query: ListStaffQuery)
    ensures var listed := MapSeq(ListRows(rows, query), ToStaff);
      forall i, j :: 0 <= i < j < |listed| ==> listed[i].createdAt >= listed[j].createdAt
  {
    var page := ListRows(rows, query);
    assert NonIncreasing(page, RowCreatedAt);
  }

  /** The listed staff members are stored staff members of the tenant, each
      at most as often as stored; without LIMIT and OFFSET all of them. */
  lemma ListedFromMatching(rows: seq<StaffRow>, query: ListStaffQuery)
    ensures var listed := MapSeq(ListRows(rows, query), ToStaff);
      && multiset(listed) <= multiset(MapSeq(Matching(rows, query.tenantId), ToStaff))
      && (query.limit.None? && Skipped(query.offset) == 0 ==>
            multiset(listed) == multiset(MapSeq(Matching(rows, query.tenantId), ToStaff)))
  {
    var matching := Matching(rows, query.tenantId);
    var sorted := SortedMatching(rows, query.tenantId);
    MapPage(sorted, query.limit, query.offset, ToStaff);
    MapPreservesPermutation(sorted, matching, ToStaff);
    if query.limit.None? && Skipped(query.offset) == 0 {
      PageUnbounded(sorted, query.offset);
    }
  }
}
