/** Tenants and their tags (crates/domain/src/model/tenant.rs). A fresh
    UUID (`TenantId::new`, `TenantTagId::new`) is a parameter of the
    constructors, and `DateTime<Utc>` is an integer instant. */
module Tenants {
  import opened Prelude
  import opened TenantTagTypes

  /** Opaque wrapper around the tenant's identifier string. */
  datatype TenantId = TenantId(value: string) {

    static function FromString(s: string): (id: TenantId)
      ensures id.AsStr() == s
    {
      TenantId(s)
    }

    function AsStr(): string {
      value
    }
  }

  /** Opaque wrapper around a tag's identifier string. */
  datatype TenantTagId = TenantTagId(value: string) {

    static function FromString(s: string): (id: TenantTagId)
      ensures id.AsStr() == s
    {
      TenantTagId(s)
    }

    function AsStr(): string {
      value
    }
  }

  /** Wrapping is lossless both ways: equal strings give equal ids and the
      id's string wraps back to the same id. */
  lemma IdWrappersRoundTrip(s: string, t: string, id: TenantId, tagId: TenantTagId)
    ensures TenantId.FromString(s) == TenantId.FromString(t) <==> s == t
    ensures TenantId.FromString(id.AsStr()) == id
    ensures TenantTagId.FromString(s) == TenantTagId.FromString(t) <==> s == t
    ensures TenantTagId.FromString(tagId.AsStr()) == tagId
  {
  }

  datatype TenantTag = TenantTag(id: TenantTagId, tagType: TenantTagType, createdAt: int, updatedAt: int) {

    /** `TenantTag::new`: a tag of the given type, created and updated at `now`. */
    static function New(id: TenantTagId, tagType: TenantTagType, now: int): (t: TenantTag)
      ensures t.id == id && t.tagType == tagType
      ensures t.createdAt == now && t.updatedAt == now
    {
      TenantTag(id, tagType, now, now)
    }
  }

  datatype Tenant = Tenant(id: TenantId, name: string, tags: seq<TenantTag>, createdAt: int, updatedAt: int) {

    /** `Tenant::new`: the given name, no tags, created and updated at `now`. */
    static function New(id: TenantId, name: string, now: int): (t: Tenant)
      ensures t.id == id && t.name == name && t.tags == []
      ensures t.createdAt == now && t.updatedAt == now
    {
      Tenant(id, name, [], now, now)
    }

    /** `Tenant::update` (`&mut self`): the result is the tenant after the
        call. A present name replaces the old one, an absent name leaves it
        alone; the update time always becomes `now`; identity, tags and
        creation time never change. */
    function Update(newName: Option<string>, now: int): (t: Tenant)
      ensures newName.Some? ==> t.name == newName.value
      ensures newName.None? ==> t.name == name
      ensures t.updatedAt == now
      ensures t.id == id && t.tags == tags && t.createdAt == createdAt
    {
      var named := if newName.Some? then this.(name := newName.value) else this;
      named.(updatedAt := now)
    }

    /** `Tenant::add_tag` (`&mut self`): the tag is appended at the end and
        every other field is untouched. */
    function AddTag(tag: TenantTag): (t: Tenant)
      ensures t.tags == tags + [tag]
      ensures t.(tags := tags) == this
    {
      this.(tags := tags + [tag])
    }
  }

  /** An update at a time no earlier than creation keeps `updated_at` at or
      after `created_at`, and one at a time no earlier than the last update
      keeps `updated_at` non-decreasing. */
  lemma UpdateKeepsTimeOrder(t: Tenant, newName: Option<string>, now: int)
    ensures now >= t.createdAt ==> t.Update(newName, now).updatedAt >= t.Update(newName, now).createdAt
    ensures now >= t.updatedAt ==> t.Update(newName, now).updatedAt >= t.updatedAt
  {
  }

  /** A fresh tenant that is then renamed keeps its creation instant. */
  lemma NewThenUpdate(id: TenantId, name: string, now: int, newName: string, later: int)
    requires later >= now
    ensures Tenant.New(id, name, now).Update(Some(newName), later).name == newName
    ensures Tenant.New(id, name, now).Update(Some(newName), later).createdAt == now
    ensures Tenant.New(id, name, now).Update(Some(newName), later).updatedAt >= now
  {
  }
}
