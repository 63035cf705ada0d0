# oxidize: tenants and staff, modelled in Dafny

oxidize is a layered CRUD service for tenants and their staff members. This
project models its core:

- the domain values: the `StaffRole` and `TenantTagType` enumerations with
  their total, lenient parsing; the identifier wrappers; the `Tenant`,
  `TenantTag` and `Staff` entities with their constructors and mutators;
  the `DomainError` taxonomy (modules `StaffRoles`, `TenantTagTypes`,
  `Tenants`, `Staffs`, `Errors`);
- the repository query records and the `Default` of `GetStaffQuery`, the
  one default the use cases build on (`RepositoryQueries`);
- the two PostgreSQL adapters, `StaffRepositoryImpl` and
  `TenantRepositoryImpl`. Each is a class whose state is the sequence of
  rows of its table (`staffs`, `tenants`). The primary key is the class
  invariant `Valid()`. `get`, `list` and `count` are functions reading
  the table. `create`, `update` and `delete` are methods rewriting it.
  What the SQL statements do to a table (WHERE, ORDER BY created_at DESC,
  LIMIT and OFFSET, projection of rows to entities) lives in `Tables`;
  the adapters are in `StaffDatabase` and `TenantDatabase`;
- the use cases `TenantInteractor` and `StaffInteractor`, classes over the
  concrete adapters, with their input and output records (`UsecaseIo`,
  `TenantUsecases`, `StaffUsecases`);
- the gRPC staff service: `parse_role`, `to_proto_staff`, the mapping of
  requests to use-case inputs and of results to replies or statuses
  (`StaffGrpc`).

External effects are parameters. The clock reading `now` is an integer
instant. The fresh UUID that `new` would draw is passed in. A driver
failure of each SQL statement is a parameter `fault: Option<string>`: with
`Some(text)`, the statement fails with the `Internal` error "DB_ERROR"
carrying that text, and the table is unchanged.

`GetStaffQuery` carries a `with_tenant` flag that asks for the tenant
snapshot of a staff member, but `StaffRepositoryImpl::get` never reads it.
So `StaffRepositoryImpl.Get` returns staff members with `tenant` absent,
whatever the flag says.

Observations the model makes explicit:

- A staff row whose role column holds a string other than "normal" or
  "admin" reads back as `Unknown`. Writing that staff member back stores
  "unknown" (`StaffDatabase.UpdateNormalisesRole`).
- `create` with an identifier already in the table violates the primary
  key. The model reports it as a driver error ("DB_ERROR", `Internal`) and
  leaves the table unchanged.
- Every use-case error reaches a gRPC caller as an internal status. This
  includes "staff not found" from `update_staff`; only `get_staff` turns
  absence into a not-found status (`StaffGrpc.StaffServiceImpl.UpdateStaff`).

## Model

| member | source | states |
|---|---|---|
| StaffRoles.StaffRole.FromStr | crates/domain/src/model/staff_role.rs:29-39 | parsing is total: "normal" gives Normal, "admin" gives Admin, and every other string (both directions) gives Unknown |
| StaffRoles.StaffRole.ToString | crates/domain/src/model/staff_role.rs:41-45 | the displayed text is the role's name |
| StaffRoles.StaffRole.Default | crates/domain/src/model/staff_role.rs:47-51 | the default role is not a valid role (it is Unknown) |
| StaffRoles.ValidityAndAdmin | crates/domain/src/model/staff_role.rs:12-18 | is_valid holds exactly for roles other than Unknown, is_admin exactly for Admin, and is_admin implies is_valid |
| StaffRoles.RoundTrip | crates/domain/src/model/staff_role.rs:20-37 | parsing a role's name gives the role back, Unknown included |
| StaffRoles.AsStrInjective | crates/domain/src/model/staff_role.rs:20-26 | distinct roles have distinct names |
| StaffRoles.CaseSensitive | crates/domain/src/model/staff_role.rs:57-62 | "Admin", "ADMIN", "Normal" and "invalid" all parse to Unknown |
| StaffRoles.DisplayExamples | crates/domain/src/model/staff_role.rs:78-82 | Normal displays as "normal" and Admin as "admin" |
| TenantTagTypes.TenantTagType.FromStr | crates/domain/src/model/tenant_tag_type.rs:30-42 | parsing is total: each of the four names gives its tag type, every other string gives Unknown |
| TenantTagTypes.TenantTagType.ToString | crates/domain/src/model/tenant_tag_type.rs:44-48 | the displayed text is the tag type's name |
| TenantTagTypes.TenantTagType.Default | crates/domain/src/model/tenant_tag_type.rs:4-7 | the default tag type is not a valid one (it is Unknown) |
| TenantTagTypes.Validity | crates/domain/src/model/tenant_tag_type.rs:15-17 | is_valid holds exactly for tag types other than Unknown |
| TenantTagTypes.RoundTrip | crates/domain/src/model/tenant_tag_type.rs:19-41 | parsing a tag type's name gives the tag type back |
| TenantTagTypes.AsStrInjective | crates/domain/src/model/tenant_tag_type.rs:19-27 | distinct tag types have distinct names |
| TenantTagTypes.ParseExamples | crates/domain/src/model/tenant_tag_type.rs:54-72 | "entertainment" parses to Entertainment; "invalid" and "Business" parse to Unknown |
| Tenants.TenantId.FromString | crates/domain/src/model/tenant.rs:14-20 | wrapping a string and reading it back gives the string |
| Tenants.TenantTagId.FromString | crates/domain/src/model/tenant.rs:37-43 | wrapping a string and reading it back gives the string |
| Tenants.IdWrappersRoundTrip | crates/domain/src/model/tenant.rs:6-44 | both wrappers are injective and every id re-wraps to itself |
| Tenants.TenantTag.New | crates/domain/src/model/tenant.rs:60-69 | a new tag has the given id and type and created_at == updated_at == now |
| Tenants.Tenant.New | crates/domain/src/model/tenant.rs:80-89 | a new tenant has the given id and name, no tags, and created_at == updated_at == now |
| Tenants.Tenant.Update | crates/domain/src/model/tenant.rs:91-96 | a present name replaces the old one, an absent one keeps it; updated_at becomes now; id, tags and created_at are kept |
| Tenants.Tenant.AddTag | crates/domain/src/model/tenant.rs:98-100 | the tag is appended after the old tags and no other field changes |
| Tenants.UpdateKeepsTimeOrder | crates/domain/src/model/tenant.rs:117-126 | updating at a time no earlier than creation (or the last update) keeps updated_at >= created_at (or non-decreasing) |
| Tenants.NewThenUpdate | crates/domain/src/model/tenant.rs:108-126 | a new tenant renamed later has the new name, its creation instant, and updated_at >= that instant |
| Staffs.StaffId.FromString | crates/domain/src/model/staff.rs:14-20 | wrapping a string and reading it back gives the string |
| Staffs.StaffIdRoundTrip | crates/domain/src/model/staff.rs:6-21 | the wrapper is injective and every id re-wraps to itself |
| Staffs.Staff.New | crates/domain/src/model/staff.rs:47-69 | the given fields verbatim, created_at == updated_at == now, image_url and tenant absent |
| Staffs.Staff.SetImageUrl | crates/domain/src/model/staff.rs:71-73 | image_url becomes the url and no other field changes |
| Staffs.Staff.SetTenant | crates/domain/src/model/staff.rs:75-77 | tenant becomes the snapshot and no other field changes |
| Staffs.IsAdminIffAdminRole | crates/domain/src/model/staff.rs:79-81 | a staff member is an admin exactly when its role is Admin, and attaching transient fields does not change that |
| Errors.DomainError.ToString | crates/domain/src/error.rs:57-63 | the displayed text of an error is its message |
| Errors.NewError | crates/domain/src/error.rs:70-76 | code, category and message are stored unchanged |
| Errors.NewBadRequest | crates/domain/src/error.rs:81-83 | the category is BadRequest, code and message as given |
| Errors.NewNotFound | crates/domain/src/error.rs:85-87 | the category is NotFound, code and message as given |
| Errors.NewInternal | crates/domain/src/error.rs:89-91 | the category is Internal, code and message as given |
| Errors.InternalError | crates/domain/src/error.rs:110-112 | code E100001, category Internal |
| Errors.InvalidArgument | crates/domain/src/error.rs:114-116 | code E100002, category BadRequest |
| Errors.TenantNotFound | crates/domain/src/error.rs:118-120 | code E200101, category NotFound |
| Errors.StaffNotFound | crates/domain/src/error.rs:122-124 | code E200201, category NotFound |
| Errors.PredefinedCodesDistinct | crates/domain/src/error.rs:107-125 | the four predefined codes are pairwise distinct; the two not-found errors share a category and differ by code |
| Tables.DbError | crates/infrastructure/src/database/staff.rs:68 | a driver failure becomes an Internal error with code "DB_ERROR" and the driver's text |
| Tables.Filter | crates/infrastructure/src/database/staff.rs:94-95 | WHERE keeps exactly the rows satisfying the condition, each as many times as the table holds it, and all rows when all satisfy it |
| Tables.FilterKeepsDistinct | crates/infrastructure/src/database/staff.rs:195-203 | removing rows never breaks the primary key |
| Tables.MapSeq | crates/infrastructure/src/database/staff.rs:131 | projection keeps length and order and projects each row |
| Tables.MapPreservesPermutation | crates/infrastructure/src/database/staff.rs:131 | projecting two orderings of the same rows gives two orderings of the same entities |
| Tables.InsertDesc | crates/infrastructure/src/database/staff.rs:98 | inserting into a newest-first sequence keeps it newest first and adds exactly one element |
| Tables.SortDesc | crates/infrastructure/src/database/staff.rs:98 | ORDER BY created_at DESC yields a permutation of its input in non-increasing key order |
| Tables.Page | crates/infrastructure/src/database/staff.rs:100-105 | OFFSET then LIMIT: the page has the computed size, never more than the limit, and is the consecutive run of rows starting after the skipped ones |
| Tables.PageUnbounded | crates/infrastructure/src/database/staff.rs:100-105 | without LIMIT and OFFSET the page is the whole input |
| Tables.PageSizeBound | crates/infrastructure/src/database/staff.rs:100-105 | a page never holds more rows than its input, and all of them when unpaged |
| Tables.PageOfSorted | crates/infrastructure/src/database/staff.rs:98-105 | a page of a newest-first sequence is newest first and holds no row the sequence does not |
| Tables.MapPage | crates/infrastructure/src/database/staff.rs:100-131 | projecting a page is paging the projection, and holds only projections of the input |
| StaffDatabase.ToStaff | crates/infrastructure/src/database/staff.rs:22-37 | columns copied, role parsed leniently, image_url and tenant absent |
| StaffDatabase.RowOf | crates/infrastructure/src/database/staff.rs:154-166 | INSERT binds the nine columns, the role by its name |
| StaffDatabase.StoredStaffReadsBack | crates/infrastructure/src/database/staff.rs:22-37 | a stored staff member reads back as itself without transient fields |
| StaffDatabase.UnrecognisedRoleReadsAsUnknown | crates/infrastructure/src/database/staff.rs:27 | a role column other than "normal"/"admin" reads back as Unknown |
| StaffDatabase.FirstMatch | crates/infrastructure/src/database/staff.rs:62-86 | fetch_optional returns a row matching every given key, or none exactly when no row matches |
| StaffDatabase.LookupById | crates/infrastructure/src/database/staff.rs:69-76 | under the primary key, a lookup by id finds exactly the row with that id |
| StaffDatabase.Matching | crates/infrastructure/src/database/staff.rs:94-95 | list and count consider exactly the rows of the requested tenant (all rows without a filter), each as many times as stored |
| StaffDatabase.SortedMatching | crates/infrastructure/src/database/staff.rs:98 | the matching rows, permuted into newest-first order |
| StaffDatabase.ListRows | crates/infrastructure/src/database/staff.rs:91-129 | the listed rows are the OFFSET/LIMIT page of a newest-first ordering of the matching rows; hence newest first, of the page size, and all of them when unpaged |
| StaffDatabase.Overwrite | crates/infrastructure/src/database/staff.rs:177-179 | UPDATE sets role, display_name, image_path, email, updated_at and keeps id, tenant_id, auth_uid, created_at |
| StaffDatabase.ApplyUpdate | crates/infrastructure/src/database/staff.rs:174-193 | the rows with the id are overwritten and every other row is unchanged |
| StaffDatabase.UpdateMissingIdIsNoOp | crates/infrastructure/src/database/staff.rs:174-193 | updating an id no row holds leaves the table unchanged |
| StaffDatabase.UpdatedRowReadsBack | crates/infrastructure/src/database/staff.rs:174-193 | an overwritten row reads back as the staff member written, without transient fields |
| StaffDatabase.UpdateNormalisesRole | crates/infrastructure/src/database/staff.rs:27 | writing back a staff member read from a row keeps a known role name and replaces an unknown one by "unknown" |
| StaffDatabase.LookupAfterUpdate | crates/infrastructure/src/database/staff.rs:174-193 | after an update, a lookup by id finds the overwritten row |
| StaffDatabase.WithoutId | crates/infrastructure/src/database/staff.rs:195-203 | DELETE leaves no row with the id, keeps every other row, and changes nothing when the id is absent |
| StaffDatabase.DeleteIdempotent | crates/infrastructure/src/database/staff.rs:195-203 | deleting twice is deleting once |
| StaffDatabase.LookupAppended | crates/infrastructure/src/database/staff.rs:151-172 | a row inserted under a new id is what a lookup by that id finds |
| StaffDatabase.ListedInTenant | crates/infrastructure/src/database/staff.rs:107-112 | with a tenant filter, every listed staff member belongs to that tenant |
| StaffDatabase.ListedNewestFirst | crates/infrastructure/src/database/staff.rs:98 | the listed staff members are newest first |
| StaffDatabase.ListedFromMatching | crates/infrastructure/src/database/staff.rs:91-131 | the listed staff members are stored members of the tenant, and all of them when unpaged |
| StaffDatabase.StaffRepositoryImpl.constructor | crates/infrastructure/src/database/staff.rs:44-48 | the adapter starts over a table that satisfies the primary key |
| StaffDatabase.StaffRepositoryImpl.Get | crates/infrastructure/src/database/staff.rs:52-89 | no key gives absence without a query; otherwise a driver failure, or a stored member matching every given key, absent exactly when none matches; tenant never loaded |
| StaffDatabase.StaffRepositoryImpl.List | crates/infrastructure/src/database/staff.rs:91-132 | the entities of the OFFSET/LIMIT page of a newest-first ordering of the tenant's rows; hence of the page size, of the tenant, all of them when unpaged; driver failure otherwise |
| StaffDatabase.StaffRepositoryImpl.Count | crates/infrastructure/src/database/staff.rs:134-149 | the number of rows the tenant filter admits, ignoring limit and offset |
| StaffDatabase.StaffRepositoryImpl.Create | crates/infrastructure/src/database/staff.rs:151-172 | appends the staff member's row and keeps the primary key; afterwards get by id returns the member; a taken id or driver failure changes nothing |
| StaffDatabase.StaffRepositoryImpl.Update | crates/infrastructure/src/database/staff.rs:174-193 | overwrites the mutable columns of the row with the id, keeps the primary key, and is a no-op when the id is absent |
| StaffDatabase.StaffRepositoryImpl.Delete | crates/infrastructure/src/database/staff.rs:195-203 | removes the row with the id, keeps the rest, and succeeds when the id is absent |
| TenantDatabase.ToTenant | crates/infrastructure/src/database/tenant.rs:15-24 | columns copied and the tag list empty |
| TenantDatabase.RowOf | crates/infrastructure/src/database/tenant.rs:86-93 | INSERT binds id, name and both timestamps; tags are dropped |
| TenantDatabase.StoredTenantReadsBack | crates/infrastructure/src/database/tenant.rs:15-24 | a stored tenant reads back as itself without tags |
| TenantDatabase.FindById | crates/infrastructure/src/database/tenant.rs:40-45 | returns a row holding the id, and none exactly when no row does |
| TenantDatabase.FindUnique | crates/infrastructure/src/database/tenant.rs:40-45 | under the primary key the row found is the one holding the id |
| TenantDatabase.FindAppended | crates/infrastructure/src/database/tenant.rs:83-99 | a row inserted under a new id is what a lookup by that id finds |
| TenantDatabase.SortedRows | crates/infrastructure/src/database/tenant.rs:55 | the rows permuted into newest-first order |
| TenantDatabase.ListRows | crates/infrastructure/src/database/tenant.rs:53-69 | the listed rows are the OFFSET/LIMIT page of a newest-first ordering of the table; hence newest first and of the page size |
| TenantDatabase.ListedNewestFirst | crates/infrastructure/src/database/tenant.rs:55 | the listed tenants are newest first |
| TenantDatabase.ListedFromTable | crates/infrastructure/src/database/tenant.rs:53-71 | the listed tenants are stored tenants, and all of them when unpaged |
| TenantDatabase.Overwrite | crates/infrastructure/src/database/tenant.rs:104-106 | UPDATE sets name and updated_at and keeps id and created_at |
| TenantDatabase.ApplyUpdate | crates/infrastructure/src/database/tenant.rs:101-117 | the row with the id is overwritten and every other row is unchanged |
| TenantDatabase.FindAfterUpdate | crates/infrastructure/src/database/tenant.rs:101-117 | after an update a lookup by id finds the overwritten row, which reads back as the tenant written |
| TenantDatabase.UpdateMissingIdIsNoOp | crates/infrastructure/src/database/tenant.rs:101-117 | updating an id no row holds leaves the table unchanged |
| TenantDatabase.WithoutId | crates/infrastructure/src/database/tenant.rs:119-127 | DELETE leaves no row with the id, keeps every other row, and changes nothing when the id is absent |
| TenantDatabase.DeleteIdempotent | crates/infrastructure/src/database/tenant.rs:119-127 | deleting twice is deleting once |
| TenantDatabase.TenantRepositoryImpl.constructor | crates/infrastructure/src/database/tenant.rs:31-35 | the adapter starts over a table that satisfies the primary key |
| TenantDatabase.TenantRepositoryImpl.Get | crates/infrastructure/src/database/tenant.rs:39-51 | no id gives absence without a query; otherwise a driver failure or the stored tenant with that id (no tags), absent exactly when no row holds it |
| TenantDatabase.TenantRepositoryImpl.List | crates/infrastructure/src/database/tenant.rs:53-72 | the tenants of the OFFSET/LIMIT page of a newest-first ordering of the table; hence of the page size, all of them when unpaged; driver failure otherwise |
| TenantDatabase.TenantRepositoryImpl.Count | crates/infrastructure/src/database/tenant.rs:74-81 | the number of rows in the table, whatever the query |
| TenantDatabase.TenantRepositoryImpl.Create | crates/infrastructure/src/database/tenant.rs:83-99 | appends the tenant's row and keeps the primary key; afterwards get by id returns the tenant without tags; a taken id or driver failure changes nothing |
| TenantDatabase.TenantRepositoryImpl.Update | crates/infrastructure/src/database/tenant.rs:101-117 | overwrites name and updated_at of the row with the id; a no-op when the id is absent |
| TenantDatabase.TenantRepositoryImpl.Delete | crates/infrastructure/src/database/tenant.rs:119-127 | removes the row with the id, keeps the rest, and succeeds when the id is absent |
| TenantUsecases.TenantInteractor.constructor | crates/usecase/src/interactor/tenant.rs:15-18 | the interactor works over the given repository |
| TenantUsecases.TenantInteractor.Get | crates/usecase/src/interactor/tenant.rs:20-23 | looks up by the input id: the stored row with that id as a tenant (no tags), or absence (not an error) exactly when no row holds the id |
| TenantUsecases.TenantInteractor.List | crates/usecase/src/interactor/tenant.rs:25-36 | the tenants of the OFFSET/LIMIT page of a newest-first ordering of the table, and the table size; page no larger than the total or the limit, equal to the total when unpaged; either failure fails the call |
| TenantUsecases.TenantInteractor.Create | crates/usecase/src/interactor/tenant.rs:38-43 | returns a tenant with the input name, no tags, created_at == updated_at == now, and stores it so that get returns it |
| TenantUsecases.TenantInteractor.Update | crates/usecase/src/interactor/tenant.rs:45-60 | a missing id fails with tenant_not_found and writes nothing; otherwise the name is replaced iff given, updated_at is now, id and created_at are kept, and the result is persisted so get returns it |
| TenantUsecases.TenantInteractor.Delete | crates/usecase/src/interactor/tenant.rs:62-64 | passes through without an existence check: success for an absent id, and get afterwards finds nothing |
| StaffUsecases.ByIdQuery | crates/usecase/src/interactor/staff.rs:56-59 | the update lookup is by id only; the derived default leaves no auth uid and no tenant |
| StaffUsecases.StaffInteractor.constructor | crates/usecase/src/interactor/staff.rs:15-18 | the interactor works over the given repository |
| StaffUsecases.StaffInteractor.Get | crates/usecase/src/interactor/staff.rs:20-27 | forwards the keys: absence without keys; otherwise a stored row matching every given key, read as a staff member, absent exactly when none matches; never with its tenant |
| StaffUsecases.StaffInteractor.List | crates/usecase/src/interactor/staff.rs:29-38 | the staff of the OFFSET/LIMIT page of a newest-first ordering of the tenant's rows, and the filtered count from the same query; page no larger than the total or the limit, equal when unpaged |
| StaffUsecases.StaffInteractor.Create | crates/usecase/src/interactor/staff.rs:40-53 | returns a staff member built from the input with created_at == updated_at == now and no transient fields, and stores it so that get returns it |
| StaffUsecases.StaffInteractor.Update | crates/usecase/src/interactor/staff.rs:55-82 | a missing id fails with staff_not_found and writes nothing; otherwise each given field replaces the stored one, updated_at is now, all else is kept, and the result is persisted so get returns it |
| StaffUsecases.StaffInteractor.Delete | crates/usecase/src/interactor/staff.rs:84-86 | passes through without an existence check: success for an absent id, and get afterwards finds nothing |
| StaffGrpc.ToLowerAscii | crates/app/src/grpc/staff_service.rs:46 | lowercasing keeps the length and lowercases each ASCII letter |
| StaffGrpc.LowerIdempotent | crates/app/src/grpc/staff_service.rs:46 | lowercasing twice is lowercasing once |
| StaffGrpc.ParseRole | crates/app/src/grpc/staff_service.rs:45-51 | parse_role is from_str applied to the lowercased input |
| StaffGrpc.LowersToWord | crates/app/src/grpc/staff_service.rs:46 | a string lowercases to a lowercase word exactly when it is a casing of that word |
| StaffGrpc.ParseRoleCaseInsensitive | crates/app/src/grpc/staff_service.rs:45-51 | any casing of "admin" gives Admin, any casing of "normal" gives Normal, and nothing else gives either |
| StaffGrpc.ParseRoleAgreesOnLowercase | crates/app/src/grpc/staff_service.rs:45-51 | on lowercase input parse_role agrees with from_str |
| StaffGrpc.ParseRoleExamples | crates/app/src/grpc/staff_service.rs:45-51 | "Admin" and "NORMAL" are recognised by parse_role but not by from_str; "owner" is Unknown |
| StaffGrpc.ToProtoStaff | crates/app/src/grpc/staff_service.rs:31-39 | identifiers and strings copied verbatim, the role by its name |
| StaffGrpc.ProtoRoleRoundTrip | crates/app/src/grpc/staff_service.rs:31-51 | the role on the wire parses back to the role with either parser |
| StaffGrpc.GetInputOf | crates/app/src/grpc/staff_service.rs:61-65 | the keys are carried over and with_tenant is always false |
| StaffGrpc.ListInputOf | crates/app/src/grpc/staff_service.rs:85-89 | tenant filter, limit and offset are carried over |
| StaffGrpc.CreateInputOf | crates/app/src/grpc/staff_service.rs:109-116 | the fields are carried over and the role goes through parse_role |
| StaffGrpc.UpdateInputOf | crates/app/src/grpc/staff_service.rs:135-141 | an absent role stays absent, a present one goes through parse_role, the other fields are carried over |
| StaffGrpc.InternalStatus | crates/app/src/grpc/staff_service.rs:71 | every use-case error becomes an internal status with the error's text, whatever its category |
| StaffGrpc.GetReply | crates/app/src/grpc/staff_service.rs:67-76 | an error becomes internal, absence becomes not-found "Staff not found", a member is sent in wire form |
| StaffGrpc.ListReply | crates/app/src/grpc/staff_service.rs:91-100 | the staff members keep their order in wire form and total_count is passed through |
| StaffGrpc.ListedInWireForm | crates/app/src/grpc/staff_service.rs:91-100 | the wire form of a listed page is the wire form of a page of the same newest-first ordering, and keeps each member's tenant |
| StaffGrpc.StaffReply | crates/app/src/grpc/staff_service.rs:118-126 | an error becomes internal, a staff member is sent in wire form |
| StaffGrpc.StaffServiceImpl.constructor | crates/app/src/grpc/staff_service.rs:25-29 | the service works over the given interactor |
| StaffGrpc.StaffServiceImpl.GetStaff | crates/app/src/grpc/staff_service.rs:56-77 | a request without keys is not-found; a driver failure is internal with its text; otherwise not-found exactly when no stored row matches every key, and a reply holds the wire form of a matching row |
| StaffGrpc.StaffServiceImpl.ListStaffs | crates/app/src/grpc/staff_service.rs:80-101 | failures are internal with the driver's text; the reply is the wire form of the OFFSET/LIMIT page of a newest-first ordering of the tenant's rows, total_count is the number of the tenant's rows, and every listed member is of the tenant |
| StaffGrpc.StaffServiceImpl.CreateStaff | crates/app/src/grpc/staff_service.rs:104-127 | failures are internal and change nothing; the reply carries the new id, the parsed role and every other request field; the table gains exactly that row; get_staff by the new id then answers with the same reply |
| StaffGrpc.StaffServiceImpl.UpdateStaff | crates/app/src/grpc/staff_service.rs:130-152 | a fault of either statement is an internal status with the driver's text; a missing staff member is an internal status with the not-found message; otherwise it succeeds, the table is the update of the stored member merged with the requested fields at `now`, and the reply is that merged member in wire form |
| StaffGrpc.StaffServiceImpl.DeleteStaff | crates/app/src/grpc/staff_service.rs:155-170 | succeeds unless the driver fails; the table loses exactly the rows with the id, and a later get_staff of the id is not-found |

## Left out

- SQL text, `sqlx` and the connection pool: each statement is modelled by its effect on the table's rows.
- `async`/`.await`, `Arc`, `#[async_trait]`, `Send + Sync`: calls are sequential.
- Concurrency: nothing can change the table between a `list` and its `count`.
- `Utc::now()` and `Uuid::new_v4()`: both are parameters (`now`, `freshId`).
- The driver's own error text: a failure is the parameter `fault`; a primary-key violation on `create` carries a fixed placeholder text.
- Timestamps are integers: PostgreSQL's microsecond rounding of `TIMESTAMPTZ` and the RFC 3339 strings of the wire message are not modelled, so `ProtoStaff` has no timestamp fields.
- `u64` limits, offsets and counts are unbounded naturals; the `i64` count cast and a `LIMIT` beyond the database's range are not modelled.
- Foreign keys: a staff row's tenant is not checked against the `tenants` table.
- The derived `Default` of `ListStaffQuery`, `GetTenantQuery` and `ListTenantQuery`: no use case builds a query from them.
- Uniqueness of `auth_uid`: the table schema is not part of this model, so it is not an invariant; a lookup by auth uid returns some matching row.
- The order among rows with equal `created_at` is open in the database. `SortDesc` settles it as table order, but no contract relies on that.
- `to_lowercase` in `parse_role` is modelled as ASCII lowercasing; other Unicode case mappings are not covered.
- Tenants.Tenant.Update, Tenants.Tenant.AddTag, Staffs.Staff.SetImageUrl, Staffs.Staff.SetTenant: the `&mut self` mutators are functions returning the updated value. The Rust values are owned and unaliased, so no sharing is lost.
- The repository traits (`StaffRepository`, `TenantRepository`) are not modelled as such: the interactors hold the concrete adapters, as the service wiring does.
- The generic `TenantInteractor<R>` / `StaffInteractor<R>` type parameter: only the database adapters are plugged in.
- Transport glue: tonic `Request`/`Response`, generated proto types beyond the fields used, the tenant gRPC service, the HTTP handlers and routers.
- Wiring and bootstrapping (servers, registry, dependency injection), telemetry, configuration, CLI, build scripts and migrations.
- crates/usecase/src/output/staff.rs is not part of this model; `ListStaffOutput` follows its use in the staff interactor.
