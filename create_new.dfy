/** The create-initiative form: the initiative being written and the draft
    gallery URL. */
module CreateNew {
  import opened Common
  import opened Initiatives

  class CreateNewForm {
    var initiative: Initiative
    var newGalleryImage: string

    constructor ()
      ensures initiative == Blank() && newGalleryImage == ""
    {
      initiative := Blank();
      newGalleryImage := "";
    }

    /** `handleChange` */
    method HandleChange(name: string, value: string)
      modifies this
      ensures initiative == ChangeField(old(initiative), name, value)
      ensures newGalleryImage == old(newGalleryImage)
    {
      initiative := ChangeField(initiative, name, value);
    }

    /** `handleAddGalleryImage`: with a non-empty draft, the draft joins the
        gallery and the draft is cleared; with an empty one nothing
        happens. */
    method HandleAddGalleryImage()
      modifies this
      ensures initiative == AddGalleryImage(old(initiative), old(newGalleryImage))
      ensures newGalleryImage == ""
    {
      if Truthy(newGalleryImage) {
        initiative := AddGalleryImage(initiative, newGalleryImage);
        newGalleryImage := "";
      }
    }

    /** `handleRemoveGalleryImage(index)` */
    method HandleRemoveGalleryImage(index: int)
      modifies this
      ensures initiative == RemoveGalleryImage(old(initiative), index)
      ensures newGalleryImage == old(newGalleryImage)
    {
      initiative := RemoveGalleryImage(initiative, index);
    }
  }
}
