/** The edit-initiative form: the list loaded from the backend, the id
    picked in the drop-down, the initiative being edited, the draft gallery
    URL and the error shown instead of the form. */
module ModalEdit {
  import opened Common
  import opened Initiatives
  import ListEdits

  const InvalidId := "Invalid initiative ID"
  const LoadFailed := "Failed to load initiatives"
  const SaveFailed := "Failed to save initiative data"

  /** The selection effect's choice: the first initiative of the list whose
      `_id` is the picked id. */
  function Selected(initiatives: seq<Initiative>, initiativeId: string): Option<Initiative> {
    ListEdits.Find(initiatives, (x: Initiative) => x.id == Some(initiativeId))
  }

  /** The initiative after the selection effect has run: unchanged when no
      id is picked, the list is empty or nothing matches, and otherwise the
      first initiative carrying the picked id. */
  function AfterSelection(initiatives: seq<Initiative>, initiativeId: string, current: Initiative): (r: Initiative)
    ensures !Truthy(initiativeId) || |initiatives| == 0 ==> r == current
    ensures (forall i :: 0 <= i < |initiatives| ==> initiatives[i].id != Some(initiativeId)) ==> r == current
    ensures r != current ==> exists i :: (0 <= i < |initiatives| && initiatives[i] == r
                                          && r.id == Some(initiativeId)
                                          && forall j :: 0 <= j < i ==> initiatives[j].id != Some(initiativeId))
    ensures Truthy(initiativeId) ==>
      forall i :: (0 <= i < |initiatives| && initiatives[i].id == Some(initiativeId)
                   && (forall j :: 0 <= j < i ==> initiatives[j].id != Some(initiativeId))) ==>
        r == initiatives[i]
  {
    if !Truthy(initiativeId) || |initiatives| == 0 then current
    else
      match Selected(initiatives, initiativeId)
      case Some(found) => found
      case None => current
  }

  class ModalEditForm {
    var initiatives: seq<Initiative>
    var initiativeId: string
    var initiative: Initiative
    var newGalleryImage: string
    var loading: bool
    var error: Option<string>
    var success: bool

    constructor ()
      ensures initiatives == [] && initiativeId == "" && initiative == Blank()
      ensures newGalleryImage == "" && loading && error.None? && !success
    {
      initiatives := [];
      initiativeId := "";
      initiative := Blank();
      newGalleryImage := "";
      loading := true;
      error := None;
      success := false;
    }

    /** The loading effect, given the list the backend sent (none when the
        request failed). */
    method LoadInitiatives(response: Option<seq<Initiative>>)
      modifies this
      ensures response.Some? ==> initiatives == response.value && error == old(error)
      ensures response.None? ==> initiatives == old(initiatives) && error == Some(LoadFailed)
      ensures !loading
      ensures initiativeId == old(initiativeId) && initiative == old(initiative)
      ensures newGalleryImage == old(newGalleryImage) && success == old(success)
    {
      if response.Some? {
        initiatives := response.value;
      } else {
        error := Some(LoadFailed);
      }
      loading := false;
    }

    /** The selection effect, run after the picked id or the list changed. */
    method SelectInitiative()
      modifies this
      ensures initiative == AfterSelection(initiatives, initiativeId, old(initiative))
      ensures initiatives == old(initiatives) && initiativeId == old(initiativeId)
      ensures newGalleryImage == old(newGalleryImage) && loading == old(loading)
      ensures error == old(error) && success == old(success)
    {
      if !Truthy(initiativeId) || |initiatives| == 0 {
        return;
      }
      var initiativeToEdit := Selected(initiatives, initiativeId);
      if initiativeToEdit.Some? {
        initiative := initiativeToEdit.value;
      }
    }

    /** `handleChange` */
    method HandleChange(name: string, value: string)
      modifies this
      ensures initiative == ChangeField(old(initiative), name, value)
      ensures initiatives == old(initiatives) && initiativeId == old(initiativeId)
      ensures newGalleryImage == old(newGalleryImage) && loading == old(loading)
      ensures error == old(error) && success == old(success)
    {
      initiative := ChangeField(initiative, name, value);
    }

    /** `handleAddGalleryImage` */
    method HandleAddGalleryImage()
      modifies this
      ensures initiative == AddGalleryImage(old(initiative), old(newGalleryImage))
      ensures newGalleryImage == ""
      ensures initiatives == old(initiatives) && initiativeId == old(initiativeId)
      ensures loading == old(loading) && error == old(error) && success == old(success)
    {
      if Truthy(newGalleryImage) {
        initiative := AddGalleryImage(initiative, newGalleryImage);
        newGalleryImage := "";
      }
    }

    /** `handleRemoveGalleryImage(index)` */
    method HandleRemoveGalleryImage(index: int)
      modifies this
      ensures initiative == RemoveGalleryImage(old(initiative), index)
      ensures initiatives == old(initiatives) && initiativeId == old(initiativeId)
      ensures newGalleryImage == old(newGalleryImage) && loading == old(loading)
      ensures error == old(error) && success == old(success)
    {
      initiative := RemoveGalleryImage(initiative, index);
    }

    /** `handleSubmit`, given whether the update request succeeded. Without
        a picked id it only sets the error and sends nothing. */
    method HandleSubmit(updateSucceeded: bool) returns (sent: bool)
      modifies this
      ensures sent <==> Truthy(initiativeId)
      ensures !sent ==> error == Some(InvalidId) && success == old(success)
      ensures sent && updateSucceeded ==> success && error == old(error)
      ensures sent && !updateSucceeded ==> error == Some(SaveFailed) && success == old(success)
      ensures initiatives == old(initiatives) && initiativeId == old(initiativeId)
      ensures initiative == old(initiative) && newGalleryImage == old(newGalleryImage)
      ensures loading == old(loading)
    {
      if !Truthy(initiativeId) {
        error := Some(InvalidId);
        sent := false;
        return;
      }
      sent := true;
      if updateSucceeded {
        success := true;
      } else {
        error := Some(SaveFailed);
      }
    }
  }
}
