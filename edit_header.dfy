/** The header editor: the logo URL, the contact phone and e-mail, the
    navigation links, and a draft link being typed. */
module EditHeader {
  import opened Strings
  import ListEdits

  datatype Contact = Contact(phone: string, email: string)
  datatype NavigationLink = NavigationLink(name: string, url: string)
  datatype HeaderData = HeaderData(logoUrl: string, contact: Contact, navigationLinks: seq<NavigationLink>)

  const BlankLink := NavigationLink("", "")

  /** A draft link is accepted when neither field is blank once trimmed. */
  predicate Acceptable(link: NavigationLink) {
    Trim(link.name) != "" && Trim(link.url) != ""
  }

  /** The links after adding the draft: appended at the end exactly as
      typed when acceptable, and unchanged otherwise. */
  function AddLink(links: seq<NavigationLink>, draft: NavigationLink): (r: seq<NavigationLink>)
    ensures Acceptable(draft) ==> r == links + [draft]
    ensures !Acceptable(draft) ==> r == links
    ensures Acceptable(draft) <==>
      (exists i :: 0 <= i < |draft.name| && !IsJsSpace(draft.name[i])) &&
      (exists i :: 0 <= i < |draft.url| && !IsJsSpace(draft.url[i]))
  {
    if Acceptable(draft) then links + [draft] else links
  }

  /** The draft after the input named `name` changed: `name` and `url` are
      the two inputs, and each changes only its own field. */
  function ChangeDraft(draft: NavigationLink, name: string, value: string): (r: NavigationLink)
    ensures name == "name" ==> r == draft.(name := value)
    ensures name == "url" ==> r == draft.(url := value)
    ensures name != "name" && name != "url" ==> r == draft
  {
    if name == "name" then draft.(name := value)
    else if name == "url" then draft.(url := value)
    else draft
  }

  class EditHeaderForm {
    var headerData: HeaderData
    var newNavigationLink: NavigationLink

    constructor ()
      ensures headerData == HeaderData("", Contact("", ""), [])
      ensures newNavigationLink == BlankLink
    {
      headerData := HeaderData("", Contact("", ""), []);
      newNavigationLink := BlankLink;
    }

    /** `handleLogoChange`: only the logo URL changes. */
    method HandleLogoChange(value: string)
      modifies this
      ensures headerData == old(headerData).(logoUrl := value)
      ensures newNavigationLink == old(newNavigationLink)
    {
      headerData := headerData.(logoUrl := value);
    }

    /** `handlePhoneChange`: only the phone changes; the e-mail, the logo
        and the links stay. */
    method HandlePhoneChange(value: string)
      modifies this
      ensures headerData.contact.phone == value
      ensures headerData.contact.email == old(headerData.contact.email)
      ensures headerData.logoUrl == old(headerData.logoUrl)
      ensures headerData.navigationLinks == old(headerData.navigationLinks)
      ensures newNavigationLink == old(newNavigationLink)
    {
      headerData := headerData.(contact := headerData.contact.(phone := value));
    }

    /** `handleEmailChange`: only the e-mail changes. */
    method HandleEmailChange(value: string)
      modifies this
      ensures headerData.contact.email == value
      ensures headerData.contact.phone == old(headerData.contact.phone)
      ensures headerData.logoUrl == old(headerData.logoUrl)
      ensures headerData.navigationLinks == old(headerData.navigationLinks)
      ensures newNavigationLink == old(newNavigationLink)
    {
      headerData := headerData.(contact := headerData.contact.(email := value));
    }

    /** `handleNavigationLinkChange` */
    method HandleNavigationLinkChange(name: string, value: string)
      modifies this
      ensures newNavigationLink == ChangeDraft(old(newNavigationLink), name, value)
      ensures headerData == old(headerData)
    {
      newNavigationLink := ChangeDraft(newNavigationLink, name, value);
    }

    /** `handleAddNavigationLink`: an acceptable draft is appended and the
        draft is cleared; otherwise nothing changes, the draft included. */
    method HandleAddNavigationLink()
      modifies this
      ensures headerData == old(headerData).(navigationLinks := AddLink(old(headerData.navigationLinks), old(newNavigationLink)))
      ensures newNavigationLink == if Acceptable(old(newNavigationLink)) then BlankLink else old(newNavigationLink)
    {
      if Acceptable(newNavigationLink) {
        headerData := headerData.(navigationLinks := AddLink(headerData.navigationLinks, newNavigationLink));
        newNavigationLink := BlankLink;
      }
    }

    /** The Remove button of link `index`: exactly that link goes. */
    method RemoveNavigationLink(index: int)
      modifies this
      ensures 0 <= index < |old(headerData.navigationLinks)| ==>
        headerData.navigationLinks ==
        old(headerData.navigationLinks)[..index] + old(headerData.navigationLinks)[index + 1..]
      ensures !(0 <= index < |old(headerData.navigationLinks)|) ==> headerData == old(headerData)
      ensures headerData.logoUrl == old(headerData.logoUrl) && headerData.contact == old(headerData.contact)
      ensures newNavigationLink == old(newNavigationLink)
    {
      var updatedLinks := ListEdits.RemoveAt(headerData.navigationLinks, index);
      ListEdits.RemoveAtSpec(headerData.navigationLinks, index);
      headerData := headerData.(navigationLinks := updatedLinks);
    }
  }
}
