/** The gRPC staff service (crates/app/src/grpc/staff_service.rs): requests
    become use-case inputs, results become replies or statuses. Transport
    types are plain records; the RFC 3339 timestamp strings of the wire
    message are not modelled. */
module StaffGrpc {
  import opened Prelude
  import opened Errors
  import opened StaffRoles
  import opened Tenants
  import opened Staffs
  import opened Tables
  import opened StaffDatabase
  import opened UsecaseIo
  import opened StaffUsecases
  import opened RepositoryQueries

  /** The wire form of a staff member, without its two timestamps. */
  datatype ProtoStaff = ProtoStaff(
    id: string,
    tenantId: string,
    role: string,
    authUid: string,
    displayName: string,
    imagePath: string,
    email: string)

  datatype GetStaffRequest = GetStaffRequest(id: Option<string>, authUid: Option<string>)
  datatype GetStaffResponse = GetStaffResponse(staff: Option<ProtoStaff>)
  datatype ListStaffsRequest = ListStaffsRequest(tenantId: Option<string>, limit: Option<nat>, offset: Option<nat>)
  datatype ListStaffsResponse = ListStaffsResponse(staffs: seq<ProtoStaff>, totalCount: nat)
  datatype CreateStaffRequest = CreateStaffRequest(
    tenantId: string, role: string, authUid: string, displayName: string, imagePath: string, email: string)
  datatype CreateStaffResponse = CreateStaffResponse(staff: Option<ProtoStaff>)
  datatype UpdateStaffRequest = UpdateStaffRequest(
    id: string, role: Option<string>, displayName: Option<string>, imagePath: Option<string>, email: Option<string>)
  datatype UpdateStaffResponse = UpdateStaffResponse(staff: Option<ProtoStaff>)
  datatype DeleteStaffRequest = DeleteStaffRequest(id: string)
  datatype DeleteStaffResponse = DeleteStaffResponse

  /** The two gRPC status codes the service produces. */
  datatype Code = NotFound | Internal
  datatype Status = Status(code: Code, message: string)

  /** ASCII lowercasing of one character. */
  function LowerChar(c: char): char {
    if 'A' <= c <= 'Z' then (c as int + 32) as char else c
  }

  /** `to_lowercase`, restricted to ASCII letters. */
  function ToLowerAscii(s: string): (r: string)
    ensures |r| == |s|
    ensures forall i :: 0 <= i < |s| ==> r[i] == LowerChar(s[i])
  {
    if s == [] then [] else [LowerChar(s[0])] + ToLowerAscii(s[1..])
  }

  /** Lowercasing twice is lowercasing once. */
  lemma LowerIdempotent(s: string)
    ensures ToLowerAscii(ToLowerAscii(s)) == ToLowerAscii(s)
  {
    assert forall i :: 0 <= i < |s| ==> ToLowerAscii(ToLowerAscii(s))[i] == ToLowerAscii(s)[i];
  }

  /** `s` is `word` written in some mixture of lower and upper case. */
  ghost predicate IsCasingOf(s: string, word: string) {
    && |s| == |word|
    && forall i :: 0 <= i < |s| ==> s[i] == word[i] || s[i] as int == word[i] as int - 32
  }

  /** `parse_role`: the role named by the lowercased request string;
      anything else is `Unknown`. */
  function ParseRole(role: string): (r: StaffRole)
    ensures r == StaffRole.FromStr(ToLowerAscii(role))
  {
    match ToLowerAscii(role)
    case "admin" => Admin
    case "normal" => Normal
    case _ => Unknown
  }

  /** A string lowercases to a lowercase word exactly when it is a casing
      of that word. */
  lemma {:induction false} LowersToWord(s: string, word: string)
    requires forall i :: 0 <= i < |word| ==> 'a' <= word[i] <= 'z'
    ensures ToLowerAscii(s) == word <==> IsCasingOf(s, word)
  {
    if ToLowerAscii(s) == word {
      forall i | 0 <= i < |s| ensures s[i] == word[i] || s[i] as int == word[i] as int - 32 {
        assert LowerChar(s[i]) == word[i];
      }
    }
    if IsCasingOf(s, word) {
      forall i | 0 <= i < |s| ensures ToLowerAscii(s)[i] == word[i] {
        assert LowerChar(s[i]) == word[i];
      }
    }
  }

  /** `parse_role` accepts every casing of the two role names and nothing
      else. */
  lemma ParseRoleCaseInsensitive(role: string)
    ensures ParseRole(role) == Admin <==> IsCasingOf(role, "admin")
    ensures ParseRole(role) == Normal <==> IsCasingOf(role, "normal")
    ensures ParseRole(role) == Unknown <==> !IsCasingOf(role, "admin") && !IsCasingOf(role, "normal")
  {
    LowersToWord(role, "admin");
    LowersToWord(role, "normal");
  }

  /** On lowercase input `parse_role` and `StaffRole::from_str` agree; on
      other input they may not. */
  lemma ParseRoleAgreesOnLowercase(role: string)
    requires ToLowerAscii(role) == role
    ensures ParseRole(role) == StaffRole.FromStr(role)
  {
  }

  lemma ParseRoleExamples()
    ensures ParseRole("Admin") == Admin && StaffRole.FromStr("Admin") == Unknown
    ensures ParseRole("NORMAL") == Normal && StaffRole.FromStr("NORMAL") == Unknown
    ensures ParseRole("owner") == Unknown
  {
    assert ToLowerAscii("Admin") == "admin";
    assert ToLowerAscii("NORMAL") == "normal";
    assert ToLowerAscii("owner") == "owner";
  }

  /** `to_proto_staff`: identifiers and strings copied, role by name. */
  function ToProtoStaff(s: Staff): (p: ProtoStaff)
    ensures p.id == s.id.AsStr() && p.tenantId == s.tenantId.AsStr()
    ensures p.role == s.role.ToString()
    ensures p.authUid == s.authUid && p.displayName == s.displayName
    ensures p.imagePath == s.imagePath && p.email == s.email
  {
    ProtoStaff(s.id.AsStr(), s.tenantId.AsStr(), s.role.ToString(), s.authUid, s.displayName, s.imagePath, s.email)
  }

  /** The role on the wire parses back to the role, by either parser. */
  lemma ProtoRoleRoundTrip(s: Staff)
    ensures StaffRole.FromStr(ToProtoStaff(s).role) == s.role
    ensures ParseRole(ToProtoStaff(s).role) == s.role
  {
    RoundTrip(s.role);
    var name := s.role.AsStr();
    assert ToLowerAscii(name) == name by {
      assert forall i :: 0 <= i < |name| ==> 'a' <= name[i] <= 'z';
    }
  }

  function GetInputOf(req: GetStaffRequest): (input: GetStaffInput)
    ensures req.id.Some? <==> input.id.Some?
    ensures req.id.Some? ==> input.id.value.AsStr() == req.id.value
    ensures input.authUid == req.authUid
    ensures !input.withTenant
  {
    GetStaffInput(if req.id.Some? then Some(StaffId.FromString(req.id.value)) else None, req.authUid, false)
  }

  function ListInputOf(req: ListStaffsRequest): (input: ListStaffInput)
    ensures req.tenantId.Some? <==> input.tenantId.Some?
    ensures req.tenantId.Some? ==> input.tenantId.value.AsStr() == req.tenantId.value
    ensures input.limit == req.limit && input.offset == req.offset
  {
    ListStaffInput(if req.tenantId.Some? then Some(TenantId.FromString(req.tenantId.value)) else None,
                   req.limit, req.offset)
  }

  function CreateInputOf(req: CreateStaffRequest): (input: CreateStaffInput)
    ensures input.tenantId.AsStr() == req.tenantId && input.role == ParseRole(req.role)
    ensures input.authUid == req.authUid && input.displayName == req.displayName
    ensures input.imagePath == req.imagePath && input.email == req.email
  {
    CreateStaffInput(TenantId.FromString(req.tenantId), ParseRole(req.role), req.authUid,
                     req.displayName, req.imagePath, req.email)
  }

  /** An absent role stays absent; a present one goes through `parse_role`. */
  function UpdateInputOf(req: UpdateStaffRequest): (input: UpdateStaffInput)
    ensures input.id.AsStr() == req.id
    ensures req.role.None? <==> input.role.None?
    ensures req.role.Some? ==> input.role.value == ParseRole(req.role.value)
    ensures input.displayName == req.displayName && input.imagePath == req.imagePath && input.email == req.email
  {
    UpdateStaffInput(StaffId.FromString(req.id), if req.role.Some? then Some(ParseRole(req.role.value)) else None,
                     req.displayName, req.imagePath, req.email)
  }

  /** A stored row matches every key a `get_staff` request carries. */
  predicate RequestMatches(row: StaffRow, req: GetStaffRequest) {
    var input := GetInputOf(req);
    KeysMatch(row, GetStaffQuery(input.id, input.authUid, input.withTenant))
  }

  /** Every use-case error becomes an internal status carrying the error's
      text, whatever its category. */
  function InternalStatus(e: DomainError): (s: Status)
    ensures s.code == Code.Internal && s.message == e.message
  {
    Status(Code.Internal, e.ToString())
  }

  /** The reply of `get_staff`: absence is "Staff not found", an error is
      internal, a staff member is sent in wire form. */
  function GetReply(result: Result<Option<Staff>, DomainError>): (r: Result<GetStaffResponse, Status>)
    ensures result.Err? ==> r == Err(InternalStatus(result.error))
    ensures result == Ok(None) ==> r == Err(Status(Code.NotFound, "Staff not found"))
    ensures result.Ok? && result.value.Some? ==> r == Ok(GetStaffResponse(Some(ToProtoStaff(result.value.value))))
  {
    match result
    case Err(e) => Err(InternalStatus(e))
    case Ok(None) => Err(Status(Code.NotFound, "Staff not found"))
    case Ok(Some(s)) => Ok(GetStaffResponse(Some(ToProtoStaff(s))))
  }

  /** The reply of `list_staffs`: the staff members in the same order and
      the total passed through. */
  function ListReply(result: Result<ListStaffOutput, DomainError>): (r: Result<ListStaffsResponse, Status>)
    ensures result.Err? ==> r == Err(InternalStatus(result.error))
    ensures result.Ok? ==> r.Ok? && r.value.totalCount == result.value.totalCount
    ensures result.Ok? ==> |r.value.staffs| == |result.value.staff|
    ensures result.Ok? ==> forall i :: 0 <= i < |result.value.staff| ==> r.value.staffs[i] == ToProtoStaff(result.value.staff[i])
  {
    match result
    case Err(e) => Err(InternalStatus(e))
    case Ok(output) => Ok(ListStaffsResponse(MapSeq(output.staff, ToProtoStaff), output.totalCount))
  }

  /** Sending a listed page in wire form keeps it the wire form of a page
      of the same newest-first ordering, and keeps every member's tenant. */
  lemma {:induction false} ListedInWireForm(staff: seq<Staff>, wire: seq<ProtoStaff>, matching: seq<StaffRow>,
                                            limit: Option<nat>, offset: Option<nat>, tenantId: Option<TenantId>)
    requires exists sorted :: SortedDescOf(sorted, matching, RowCreatedAt) && staff == MapSeq(Page(sorted, limit, offset), ToStaff)
    requires tenantId.Some? ==> forall s | s in staff :: s.tenantId == tenantId.value
    requires |wire| == |staff| && forall i :: 0 <= i < |staff| ==> wire[i] == ToProtoStaff(staff[i])
    ensures exists sorted :: SortedDescOf(sorted, matching, RowCreatedAt) &&
                             wire == MapSeq(MapSeq(Page(sorted, limit, offset), ToStaff), ToProtoStaff)
    ensures tenantId.Some? ==> forall p | p in wire :: p.tenantId == tenantId.value.AsStr()
  {
    var sorted :| SortedDescOf(sorted, matching, RowCreatedAt) && staff == MapSeq(Page(sorted, limit, offset), ToStaff);
    assert wire == MapSeq(staff, ToProtoStaff);
    if tenantId.Some? {
      forall p | p in wire ensures p.tenantId == tenantId.value.AsStr() {
        var i :| 0 <= i < |wire| && wire[i] == p;
        assert staff[i] in staff;
      }
    }
  }

  /** The reply of `create_staff` and `update_staff`. */
  function StaffReply(result: Result<Staff, DomainError>): (r: Result<ProtoStaff, Status>)
    ensures result.Err? ==> r == Err(InternalStatus(result.error))
    ensures result.Ok? ==> r == Ok(ToProtoStaff(result.value))
  {
    match result
    case Err(e) => Err(InternalStatus(e))
    case Ok(s) => Ok(ToProtoStaff(s))
  }

  /** `StaffServiceImpl`: the service over the staff use cases. */
  class StaffServiceImpl {
    const interactor: StaffInteractor

    ghost predicate Valid()
      reads interactor.repository
    {
      interactor.Valid()
    }

    constructor (interactor: StaffInteractor)
      ensures this.interactor == interactor
    {
      this.interactor := interactor;
    }

    /** `get_staff`: never asks for the tenant; a request without keys, or
        whose keys match no stored staff member, is answered "not found";
        otherwise the reply is a stored staff member matching every key. */
    function GetStaff(req: GetStaffRequest, fault: Option<string>): (r: Result<GetStaffResponse, Status>)
      reads interactor.repository
      ensures req.id.None? && req.authUid.None? ==> r == Err(Status(Code.NotFound, "Staff not found"))
      ensures (req.id.Some? || req.authUid.Some?) && fault.Some? ==> r == Err(Status(Code.Internal, fault.value))
      ensures (req.id.Some? || req.authUid.Some?) && fault.None? ==>
                (r.Err? <==> forall row | row in interactor.repository.rows :: !RequestMatches(row, req))
      ensures fault.None? && r.Err? ==> r.error == Status(Code.NotFound, "Staff not found")
      ensures r.Ok? ==> r.value.staff.Some?
      ensures r.Ok? ==> exists row | row in interactor.repository.rows :: RequestMatches(row, req) &&
                                                                          r.value.staff.value == ToProtoStaff(ToStaff(row))
      ensures r.Ok? ==> (req.id.Some? ==> r.value.staff.value.id == req.id.value)
      ensures r.Ok? && req.authUid.Some? ==> r.value.staff.value.authUid == req.authUid.value
    {
      var input := GetInputOf(req);
      GetReply(interactor.Get(input, fault))
    }

    /** `list_staffs`: the page of staff members the use case lists, in its
        newest-first order, and the number of staff members of the tenant;
        either failure is internal. */
    function ListStaffs(req: ListStaffsRequest, listFault: Option<string>, countFault: Option<string>)
      : (r: Result<ListStaffsResponse, Status>)
      reads interactor.repository
      ensures listFault.Some? ==> r == Err(Status(Code.Internal, listFault.value))
      ensures listFault.None? && countFault.Some? ==> r == Err(Status(Code.Internal, countFault.value))
      ensures listFault.None? && countFault.None? ==> r.Ok?
      ensures r.Ok? ==> r.value.totalCount == |Matching(interactor.repository.rows, ListInputOf(req).tenantId)|
      ensures r.Ok? ==>
                exists sorted :: SortedDescOf(sorted, Matching(interactor.repository.rows, ListInputOf(req).tenantId), RowCreatedAt) &&
                                 r.value.staffs == MapSeq(MapSeq(Page(sorted, req.limit, req.offset), ToStaff), ToProtoStaff)
      ensures r.Ok? ==> |r.value.staffs| <= r.value.totalCount
      ensures r.Ok? && req.tenantId.Some? ==> forall p | p in r.value.staffs :: p.tenantId == req.tenantId.value
    {
      var input := ListInputOf(req);
      var result := interactor.List(input, listFault, countFault);
      var reply := ListReply(result);
      if reply.Ok? then
        ListedInWireForm(result.value.staff, reply.value.staffs, Matching(interactor.repository.rows, input.tenantId),
                         req.limit, req.offset, input.tenantId);
        reply
      else
        reply
    }

    /** `create_staff`. */
    method CreateStaff(req: CreateStaffRequest, freshId: StaffId, now: int, fault: Option<string>)
      returns (r: Result<CreateStaffResponse, Status>)
      requires Valid()
      modifies interactor.repository
      ensures Valid()
      ensures r.Err? ==> r.error.code == Code.Internal && interactor.repository.rows == old(interactor.repository.rows)
      ensures fault.None? && !HasId(old(interactor.repository.rows), freshId.AsStr()) ==> r.Ok?
      ensures fault.Some? ==> r == Err(Status(Code.Internal, fault.value))
      ensures r.Ok? ==> r.value.staff == Some(ProtoStaff(freshId.AsStr(), req.tenantId, ParseRole(req.role).AsStr(),
                                                         req.authUid, req.displayName, req.imagePath, req.email))
      ensures r.Ok? ==> interactor.repository.rows == old(interactor.repository.rows) +
                          [StaffRow(freshId.AsStr(), req.tenantId, ParseRole(req.role).AsStr(), req.authUid,
                                    req.displayName, req.imagePath, req.email, now, now)]
      ensures r.Ok? ==> GetStaff(GetStaffRequest(Some(freshId.AsStr()), None), None) == Ok(GetStaffResponse(r.value.staff))
    {
      var result := interactor.Create(CreateInputOf(req), freshId, now, fault);
      var reply := StaffReply(result);
      r := if reply.Ok? then Ok(CreateStaffResponse(Some(reply.value))) else Err(reply.error);
    }

    /** `update_staff`: a missing staff member surfaces as an internal
        status, not as "not found". */
    method UpdateStaff(req: UpdateStaffRequest, now: int, getFault: Option<string>, writeFault: Option<string>)
      returns (r: Result<UpdateStaffResponse, Status>)
      requires Valid()
      modifies interactor.repository
      ensures Valid()
      ensures r.Err? ==> r.error.code == Code.Internal && interactor.repository.rows == old(interactor.repository.rows)
      ensures getFault.Some? ==> r == Err(Status(Code.Internal, getFault.value))
      ensures getFault.None? && !HasId(old(interactor.repository.rows), req.id) ==>
                r == Err(Status(Code.Internal, StaffNotFound().message))
      ensures getFault.None? && HasId(old(interactor.repository.rows), req.id) && writeFault.Some? ==>
                r == Err(Status(Code.Internal, writeFault.value))
      ensures getFault.None? && HasId(old(interactor.repository.rows), req.id) && writeFault.None? ==> r.Ok?
      ensures r.Ok? ==>
                var before := old(interactor.repository.Get(ByIdQuery(StaffId.FromString(req.id)), None)).value.value;
                var input := UpdateInputOf(req);
                var merged := before.(role := input.role.GetOr(before.role),
                                      displayName := input.displayName.GetOr(before.displayName),
                                      imagePath := input.imagePath.GetOr(before.imagePath),
                                      email := input.email.GetOr(before.email),
                                      updatedAt := now);
                && interactor.repository.rows == ApplyUpdate(old(interactor.repository.rows), merged)
                && r.value.staff == Some(ToProtoStaff(merged))
      ensures r.Ok? ==> r.value.staff.Some? && r.value.staff.value.id == req.id
      ensures r.Ok? && req.role.Some? ==> r.value.staff.value.role == ParseRole(req.role.value).AsStr()
      ensures r.Ok? && req.displayName.Some? ==> r.value.staff.value.displayName == req.displayName.value
      ensures r.Ok? && req.email.Some? ==> r.value.staff.value.email == req.email.value
      ensures r.Ok? && req.imagePath.Some? ==> r.value.staff.value.imagePath == req.imagePath.value
    {
      var result := interactor.Update(UpdateInputOf(req), now, getFault, writeFault);
      var reply := StaffReply(result);
      r := if reply.Ok? then Ok(UpdateStaffResponse(Some(reply.value))) else Err(reply.error);
    }

    /** `delete_staff`: succeeds whether or not the staff member existed. */
    method DeleteStaff(req: DeleteStaffRequest, fault: Option<string>) returns (r: Result<DeleteStaffResponse, Status>)
      requires Valid()
      modifies interactor.repository
      ensures Valid()
      ensures fault.Some? ==> r == Err(Status(Code.Internal, fault.value)) && interactor.repository.rows == old(interactor.repository.rows)
      ensures fault.None? ==> r == Ok(DeleteStaffResponse)
      ensures fault.None? ==> interactor.repository.rows == WithoutId(old(interactor.repository.rows), req.id)
      ensures r.Ok? ==> GetStaff(GetStaffRequest(Some(req.id), None), None) == Err(Status(Code.NotFound, "Staff not found"))
    {
      var result := interactor.Delete(DeleteStaffInput(StaffId.FromString(req.id)), fault);
      r := if result.Ok? then Ok(DeleteStaffResponse) else Err(InternalStatus(result.error));
    }
  }
}
