/** The tenant tag type enumeration
    (crates/domain/src/model/tenant_tag_type.rs). */
module TenantTagTypes {

  datatype TenantTagType = Unknown | Entertainment | Education | Business | Other {

    /** Every tag type except `Unknown` is a valid one. */
    predicate IsValid() {
      !Unknown?
    }

    function AsStr(): string {
      match this
      case Unknown => "unknown"
      case Entertainment => "entertainment"
      case Education => "education"
      case Business => "business"
      case Other => "other"
    }

    /** `Display`: writes the tag type's name. */
    function ToString(): (text: string)
      ensures text == AsStr()
    {
      AsStr()
    }

    /** `Default`: the derived default is not a valid tag type. */
    static function Default(): (t: TenantTagType)
      ensures !t.IsValid()
    {
      Unknown
    }

    /** `FromStr`: total; the four known names denote their tag type and any
        other string (including "unknown") becomes `Unknown`. */
    static function FromStr(s: string): (t: TenantTagType)
      ensures t == Entertainment <==> s == "entertainment"
      ensures t == Education <==> s == "education"
      ensures t == Business <==> s == "business"
      ensures t == Other <==> s == "other"
      ensures t == Unknown <==> s !in {"entertainment", "education", "business", "other"}
    {
      match s
      case "entertainment" => Entertainment
      case "education" => Education
      case "business" => Business
      case "other" => Other
      case _ => Unknown
    }
  }

  lemma Validity(t: TenantTagType)
    ensures t.IsValid() <==> t != Unknown
  {
  }

  /** Parsing a tag type's own name gives the tag type back. */
  lemma RoundTrip(t: TenantTagType)
    ensures TenantTagType.FromStr(t.AsStr()) == t
  {
  }

  /** Distinct tag types have distinct names. */
  lemma AsStrInjective(t1: TenantTagType, t2: TenantTagType)
    ensures t1.AsStr() == t2.AsStr() ==> t1 == t2
  {
  }

  lemma ParseExamples()
    ensures TenantTagType.FromStr("entertainment") == Entertainment
    ensures TenantTagType.FromStr("invalid") == Unknown
    ensures TenantTagType.FromStr("Business") == Unknown
  {
  }
}
