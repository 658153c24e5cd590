/** The footer editor: the sections loaded from the backend, the section
    picked for subitem edits, the drafts of a new section and a new
    subitem, and the subitem being edited with its edit buffer. Every
    backend call is given as its outcome: the section the backend answered
    with, or none when the call threw. */
module EditFooter {
  import opened Common
  import ListEdits

  datatype Subitem = Subitem(id: string, name: string, url: string)
  datatype Section = Section(id: string, title: string, links: seq<Subitem>)

  /** The `{ title, links }` draft of a new section. */
  datatype SectionDraft = SectionDraft(title: string, links: seq<Subitem>)
  /** The `{ name, url }` drafts of a new subitem and of an edited one. */
  datatype LinkDraft = LinkDraft(name: string, url: string)

  const BlankSection := SectionDraft("", [])
  const BlankLink := LinkDraft("", "")

  /** What the initial load got: a throw, a body that is not an array, or
      an array of sections. */
  datatype FetchOutcome = FetchThrew | NotAnArray | AnArray(sections: seq<Section>)

  /** The sections shown after the initial load: the array when there is
      one, and no sections otherwise. */
  function LoadedSections(outcome: FetchOutcome): (r: seq<Section>)
    ensures outcome.AnArray? ==> r == outcome.sections
    ensures !outcome.AnArray? ==> r == []
  {
    match outcome
    case AnArray(sections) => sections
    case _ => []
  }

  /** The guard of the add and update handlers: a section is picked, and
      the draft's name and URL are both non-empty (untrimmed). */
  predicate CanSendLink(selected: Option<string>, draft: LinkDraft) {
    PresentAndTruthy(selected) && Truthy(draft.name) && Truthy(draft.url)
  }

  /** `prev.map(section => section._id === selected ? returned : section)`:
      every section carrying the picked id becomes the returned one, every
      other keeps its place and value, and the length stays. When the
      returned section keeps the picked id, the ids stay as they were. */
  function ReplaceSelected(sections: seq<Section>, selected: string, returned: Section): (r: seq<Section>)
    ensures |r| == |sections|
    ensures forall i :: 0 <= i < |sections| && sections[i].id == selected ==> r[i] == returned
    ensures forall i :: 0 <= i < |sections| && sections[i].id != selected ==> r[i] == sections[i]
    ensures returned.id == selected ==> forall i :: 0 <= i < |r| ==> r[i].id == sections[i].id
  {
    ListEdits.ReplaceWhere(sections, (s: Section) => s.id == selected, returned)
  }

  /** A picked id that no section carries leaves the list as it was. */
  lemma ReplaceAbsentIsIdentity(sections: seq<Section>, selected: string, returned: Section)
    requires forall i :: 0 <= i < |sections| ==> sections[i].id != selected
    ensures ReplaceSelected(sections, selected, returned) == sections
  {
    var r := ReplaceSelected(sections, selected, returned);
    assert forall i :: 0 <= i < |r| ==> r[i] == sections[i];
  }

  /** Replaying the same answer changes nothing more: a retried add,
      update or delete that gets the same section back is harmless. */
  lemma ReplaceSelectedIdempotent(sections: seq<Section>, selected: string, returned: Section)
    ensures ReplaceSelected(ReplaceSelected(sections, selected, returned), selected, returned)
         == ReplaceSelected(sections, selected, returned)
  {
    var once := ReplaceSelected(sections, selected, returned);
    var twice := ReplaceSelected(once, selected, returned);
    forall i | 0 <= i < |once| ensures twice[i] == once[i] {
      if sections[i].id == selected {
        assert once[i] == returned;
      }
    }
  }

  class EditFooterForm {
    var footerSections: seq<Section>
    var selectedSection: Option<string>
    var newSection: SectionDraft
    var newSubitem: LinkDraft
    var editingSubitem: Option<string>
    var editedData: LinkDraft

    constructor ()
      ensures footerSections == [] && selectedSection.None? && newSection == BlankSection
      ensures newSubitem == BlankLink && editingSubitem.None? && editedData == BlankLink
    {
      footerSections := [];
      selectedSection := None;
      newSection := BlankSection;
      newSubitem := BlankLink;
      editingSubitem := None;
      editedData := BlankLink;
    }

    /** `fetchFooterSections` */
    method FetchFooterSections(outcome: FetchOutcome)
      modifies this
      ensures footerSections == LoadedSections(outcome)
      ensures selectedSection == old(selectedSection) && newSection == old(newSection)
      ensures newSubitem == old(newSubitem)
      ensures editingSubitem == old(editingSubitem) && editedData == old(editedData)
    {
      match outcome {
        case AnArray(sections) =>
          footerSections := sections;
        case NotAnArray =>
          footerSections := [];
        case FetchThrew =>
          footerSections := [];
      }
    }

    /** Clicking a section in the list picks its id. */
    method SelectSection(id: string)
      modifies this
      ensures selectedSection == Some(id)
      ensures footerSections == old(footerSections) && newSection == old(newSection)
      ensures newSubitem == old(newSubitem)
      ensures editingSubitem == old(editingSubitem) && editedData == old(editedData)
    {
      selectedSection := Some(id);
    }

    /** The Edit button of a subitem: marks it and copies its name and URL
        into the edit buffer. */
    method StartEditing(subitem: Subitem)
      modifies this
      ensures editingSubitem == Some(subitem.id) && editedData == LinkDraft(subitem.name, subitem.url)
      ensures footerSections == old(footerSections) && selectedSection == old(selectedSection)
      ensures newSection == old(newSection) && newSubitem == old(newSubitem)
    {
      editingSubitem := Some(subitem.id);
      editedData := LinkDraft(subitem.name, subitem.url);
    }

    /** The Cancel button: only the editing marker goes. */
    method CancelEditing()
      modifies this
      ensures editingSubitem.None?
      ensures editedData == old(editedData)
      ensures footerSections == old(footerSections) && selectedSection == old(selectedSection)
      ensures newSection == old(newSection) && newSubitem == old(newSubitem)
    {
      editingSubitem := None;
    }

    /** `handleAddSection`: with an empty title nothing is sent and nothing
        changes; otherwise the answered section joins the end of the list
        and the draft is reset, and a failed call changes nothing. */
    method HandleAddSection(response: Option<Section>) returns (sent: bool)
      modifies this
      ensures sent <==> Truthy(old(newSection.title))
      ensures sent && response.Some? ==>
        footerSections == old(footerSections) + [response.value] && newSection == BlankSection
      ensures !sent || response.None? ==>
        footerSections == old(footerSections) && newSection == old(newSection)
      ensures selectedSection == old(selectedSection) && newSubitem == old(newSubitem)
      ensures editingSubitem == old(editingSubitem) && editedData == old(editedData)
    {
      if !Truthy(newSection.title) {
        return false;
      }
      sent := true;
      if response.Some? {
        footerSections := footerSections + [response.value];
        newSection := BlankSection;
      }
    }

    /** `handleAddSubitem`: sent only when `CanSendLink` holds of the
        picked section and the new-subitem draft; on success the picked
        section is replaced by the answered one and the draft is reset. */
    method HandleAddSubitem(response: Option<Section>) returns (sent: bool)
      modifies this
      ensures sent <==> CanSendLink(old(selectedSection), old(newSubitem))
      ensures sent && response.Some? ==>
        footerSections == ReplaceSelected(old(footerSections), old(selectedSection).value, response.value)
        && newSubitem == BlankLink
      ensures !sent || response.None? ==>
        footerSections == old(footerSections) && newSubitem == old(newSubitem)
      ensures selectedSection == old(selectedSection) && newSection == old(newSection)
      ensures editingSubitem == old(editingSubitem) && editedData == old(editedData)
    {
      if !PresentAndTruthy(selectedSection) || !Truthy(newSubitem.name) || !Truthy(newSubitem.url) {
        return false;
      }
      sent := true;
      if response.Some? {
        footerSections := ReplaceSelected(footerSections, selectedSection.value, response.value);
        newSubitem := BlankLink;
      }
    }

    /** `handleUpdateSubitem`: sent only when `CanSendLink` holds of the
        picked section and the edit buffer; on success the picked section
        is replaced, the editing marker is cleared and the buffer reset. */
    method HandleUpdateSubitem(response: Option<Section>) returns (sent: bool)
      modifies this
      ensures sent <==> CanSendLink(old(selectedSection), old(editedData))
      ensures sent && response.Some? ==>
        footerSections == ReplaceSelected(old(footerSections), old(selectedSection).value, response.value)
        && editingSubitem.None? && editedData == BlankLink
      ensures !sent || response.None? ==>
        footerSections == old(footerSections)
        && editingSubitem == old(editingSubitem) && editedData == old(editedData)
      ensures selectedSection == old(selectedSection) && newSection == old(newSection)
      ensures newSubitem == old(newSubitem)
    {
      if !PresentAndTruthy(selectedSection) || !Truthy(editedData.name) || !Truthy(editedData.url) {
        return false;
      }
      sent := true;
      if response.Some? {
        footerSections := ReplaceSelected(footerSections, selectedSection.value, response.value);
        editingSubitem := None;
        editedData := BlankLink;
      }
    }

    /** `handleDeleteSubitem`: needs only a picked section; on success the
        picked section is replaced by the answered one. */
    method HandleDeleteSubitem(response: Option<Section>) returns (sent: bool)
      modifies this
      ensures sent <==> PresentAndTruthy(old(selectedSection))
      ensures sent && response.Some? ==>
        footerSections == ReplaceSelected(old(footerSections), old(selectedSection).value, response.value)
      ensures !sent || response.None? ==> footerSections == old(footerSections)
      ensures selectedSection == old(selectedSection) && newSection == old(newSection)
      ensures newSubitem == old(newSubitem)
      ensures editingSubitem == old(editingSubitem) && editedData == old(editedData)
    {
      if !PresentAndTruthy(selectedSection) {
        return false;
      }
      sent := true;
      if response.Some? {
        footerSections := ReplaceSelected(footerSections, selectedSection.value, response.value);
      }
    }
  }
}
