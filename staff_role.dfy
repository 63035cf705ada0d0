/** The staff role enumeration (crates/domain/src/model/staff_role.rs). */
module StaffRoles {

  datatype StaffRole = Unknown | Normal | Admin {

    /** Every role except `Unknown` is a valid one. */
    predicate IsValid() {
      !Unknown?
    }

    predicate IsAdmin() {
      Admin?
    }

    /** The stored and displayed name of the role. */
    function AsStr(): string {
      match this
      case Unknown => "unknown"
      case Normal => "normal"
      case Admin => "admin"
    }

    /** `Display`: writes the role's name. */
    function ToString(): (text: string)
      ensures text == AsStr()
    {
      AsStr()
    }

    /** `Default`: a role nobody chose is not a valid role. */
    static function Default(): (r: StaffRole)
      ensures !r.IsValid()
    {
      Unknown
    }

    /** `FromStr`: total and case-sensitive; only the exact names "normal"
        and "admin" denote a role, everything else (including "unknown")
        falls back to `Unknown` instead of failing. */
    static function FromStr(s: string): (r: StaffRole)
      ensures r == Normal <==> s == "normal"
      ensures r == Admin <==> s == "admin"
      ensures r == Unknown <==> s != "normal" && s != "admin"
    {
      match s
      case "normal" => Normal
      case "admin" => Admin
      case _ => Unknown
    }
  }

  /** Validity and administrator rights, as the tests of the enum state them. */
  lemma ValidityAndAdmin(r: StaffRole)
    ensures r.IsValid() <==> r != Unknown
    ensures r.IsAdmin() <==> r == Admin
    ensures r.IsAdmin() ==> r.IsValid()
  {
  }

  /** Parsing a role's own name gives the role back; for `Unknown` this goes
      through the fallback branch. */
  lemma RoundTrip(r: StaffRole)
    ensures StaffRole.FromStr(r.AsStr()) == r
  {
  }

  /** Distinct roles have distinct names. */
  lemma AsStrInjective(r1: StaffRole, r2: StaffRole)
    ensures r1.AsStr() == r2.AsStr() ==> r1 == r2
  {
  }

  /** Parsing ignores no case: capitalised names are not recognised. */
  lemma CaseSensitive()
    ensures StaffRole.FromStr("Admin") == Unknown
    ensures StaffRole.FromStr("ADMIN") == Unknown
    ensures StaffRole.FromStr("Normal") == Unknown
    ensures StaffRole.FromStr("invalid") == Unknown
  {
  }

  lemma DisplayExamples()
    ensures Normal.ToString() == "normal"
    ensures Admin.ToString() == "admin"
  {
  }
}
