/** The admin-accounts page: the admins the backend lists, the signed-in
    user read back from storage, and the list of the other admins it
    shows. The stored user is opaque text; where the page reads its `_id`,
    that id is given as a parameter. */
module AdminAccounts {
  import opened Common
  import Storage
  import ListEdits
  import Login

  datatype Admin = Admin(id: string, username: string, role: string)

  const FetchFailed := "Failed to fetch admin accounts"
  const FetchError := "Error fetching admin accounts"

  /** What the load got: `fetch` or `json()` threw, or a response arrived
      with its `ok` flag and the `admins` of its body. */
  datatype AdminsResponse = AdminsThrew | AdminsResponded(ok: bool, admins: seq<Admin>)

  /** `admins.filter(admin => admin._id !== currentUser?._id)`, where
      `currentUserId` is the signed-in user's `_id` (absent when there is
      no stored user or it has none). The signed-in user never appears,
      every other admin does, as many times as the backend lists it, and
      with no id every admin is shown. */
  function Displayed(admins: seq<Admin>, currentUserId: Option<string>): (r: seq<Admin>)
    ensures forall a :: a in r ==> a in admins && currentUserId != Some(a.id)
    ensures forall a :: a in admins && currentUserId != Some(a.id) ==> a in r
    ensures currentUserId.None? ==> r == admins
    ensures forall i :: 0 <= i < |admins| && currentUserId != Some(admins[i].id) ==>
      multiset(r)[admins[i]] == multiset(admins)[admins[i]]
  {
    ListEdits.Filter(admins, (a: Admin) => currentUserId != Some(a.id))
  }

  /** The shown admins keep the order the backend listed them in. */
  lemma DisplayedKeepsOrder(admins: seq<Admin>, currentUserId: Option<string>)
    ensures ListEdits.IsSubsequence(Displayed(admins, currentUserId), admins)
  {
    ListEdits.FilterIsSubsequence(admins, (a: Admin) => currentUserId != Some(a.id));
  }

  /** What the page shows. */
  datatype View = LoadingView | ErrorView(message: string) | AccountsView(others: seq<Admin>)

  /** The page's three states, in the order it tests them: loading first,
      then a non-empty error, then the other admins. */
  function Render(loading: bool, error: string, admins: seq<Admin>, currentUserId: Option<string>): (v: View)
    ensures loading <==> v.LoadingView?
    ensures v.ErrorView? <==> !loading && Truthy(error)
    ensures v.ErrorView? ==> v.message == error
    ensures v.AccountsView? ==> v.others == Displayed(admins, currentUserId)
  {
    if loading then LoadingView
    else if Truthy(error) then ErrorView(error)
    else AccountsView(Displayed(admins, currentUserId))
  }

  class AdminAccountsPage {
    var admins: seq<Admin>
    /** The stored `user` text, once it has been read. */
    var currentUser: Option<string>
    var loading: bool
    var error: string

    constructor ()
      ensures admins == [] && currentUser.None? && loading && error == ""
    {
      admins := [];
      currentUser := None;
      loading := true;
      error := "";
    }

    /** `fetchAdmins`. `userParses` says whether `JSON.parse` accepts the
        stored user; a stored text it rejects throws after the admins were
        set, and the throw is caught like a failed request. With no stored
        user, `JSON.parse(null)` gives `null` and does not throw. The store
        is read only on an ok response and is never written. */
    method FetchAdmins(store: Storage.Store, response: AdminsResponse, userParses: bool)
      requires store.Get(Login.UserKey).None? ==> userParses
      modifies this
      ensures !loading
      ensures store.entries == old(store.entries)
      ensures response.AdminsResponded? && response.ok ==> admins == response.admins
      ensures !(response.AdminsResponded? && response.ok) ==> admins == old(admins)
      ensures response.AdminsResponded? && response.ok && userParses ==>
        currentUser == store.Get(Login.UserKey) && error == old(error)
      ensures response.AdminsResponded? && response.ok && !userParses ==>
        currentUser == old(currentUser) && error == FetchError
      ensures response.AdminsResponded? && !response.ok ==>
        currentUser == old(currentUser) && error == FetchFailed
      ensures response.AdminsThrew? ==> currentUser == old(currentUser) && error == FetchError
    {
      match response {
        case AdminsThrew =>
          error := FetchError;
        case AdminsResponded(ok, listed) =>
          if ok {
            admins := listed;
            var user := store.Get(Login.UserKey);
            if userParses {
              currentUser := user;
            } else {
              error := FetchError;
            }
          } else {
            error := FetchFailed;
          }
      }
      loading := false;
    }
  }
}
