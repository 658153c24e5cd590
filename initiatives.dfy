/** An initiative as the create and edit forms hold it, and the next-state
    computations both forms share: a field change, appending a gallery
    image and removing one by position. */
module Initiatives {
  import opened Common
  import ListEdits
  import opened Strings

  /** The backend's `_id` (absent for one not yet created), the text fields
      (`title`, `subtitle`, `location`, `tagline`, `description`,
      `mainImage`) and the gallery of image URLs. */
  datatype Initiative = Initiative(id: Option<string>, fields: map<string, string>, gallery: seq<string>)

  const TextFields := ["title", "subtitle", "location", "tagline", "description", "mainImage"]

  /** The empty form both pages start from. */
  function Blank(): (b: Initiative)
    ensures b.id.None? && b.gallery == []
    ensures forall k :: k in TextFields ==> k in b.fields && b.fields[k] == ""
    ensures b.fields.Keys == set k | k in TextFields
  {
    Initiative(None, map k | k in TextFields :: "", [])
  }

  /** `{ ...initiative, [name]: value }`: only the named field changes. */
  function ChangeField(init: Initiative, name: string, value: string): (r: Initiative)
    ensures r.id == init.id && r.gallery == init.gallery
    ensures r.fields == SetField(init.fields, name, value)
  {
    init.(fields := SetField(init.fields, name, value))
  }

  /** The add-image handler's update: a non-empty draft is appended at the
      end and nothing else moves; an empty draft changes nothing. */
  function AddGalleryImage(init: Initiative, draft: string): (r: Initiative)
    ensures r.id == init.id && r.fields == init.fields
    ensures Truthy(draft) ==>
      |r.gallery| == |init.gallery| + 1 && r.gallery[..|init.gallery|] == init.gallery && Last(r.gallery) == draft
    ensures !Truthy(draft) ==> r == init
  {
    if Truthy(draft) then init.(gallery := init.gallery + [draft]) else init
  }

  /** The remove-image handler's update: exactly position `index` leaves
      the gallery, the others keep their order, an index outside the
      gallery changes nothing, and no other field moves. */
  function RemoveGalleryImage(init: Initiative, index: int): (r: Initiative)
    ensures r.id == init.id && r.fields == init.fields
    ensures 0 <= index < |init.gallery| ==>
      r.gallery == init.gallery[..index] + init.gallery[index + 1..]
    ensures !(0 <= index < |init.gallery|) ==> r == init
  {
    ListEdits.RemoveAtSpec(init.gallery, index);
    init.(gallery := ListEdits.RemoveAt(init.gallery, index))
  }
}
