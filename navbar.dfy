/** The dashboard's side bar: logout and the highlighting of the link for
    the current address. Logout empties storage and replaces the current
    history entry with the login page before, and whatever, the backend's
    logout request answers; the request itself is fired and forgotten, so
    its outcome is not an input here. */
module NavBar {
  import opened Common
  import Storage
  import Login

  /** The link targets, top to bottom. */
  const LinkTargets := ["/admin-accounts", "/edit-header", "/banner-edit", "/Hero-Text-edit",
                        "/create-new", "/Edit-modal", "/edit-footer", "/enquiries"]

  /** `isActiveRoute(path)`: the current address is exactly `path`. */
  function IsActiveRoute(pathname: string, path: string): (r: bool)
    ensures r <==> pathname == path
  {
    pathname == path
  }

  /** No two links point to the same place... */
  lemma LinkTargetsDistinct()
    ensures forall i, j :: 0 <= i < j < |LinkTargets| ==> LinkTargets[i] != LinkTargets[j]
  {
    forall i, j | 0 <= i < j < |LinkTargets| ensures LinkTargets[i] != LinkTargets[j] {
      var a, b := LinkTargets[i], LinkTargets[j];
      if |a| == |b| && |a| > 6 {
        assert a[1] != b[1] || a[6] != b[6];
      }
    }
  }

  /** ...so at most one link is highlighted at a time. */
  lemma AtMostOneActive(pathname: string, i: nat, j: nat)
    requires i < |LinkTargets| && j < |LinkTargets|
    requires IsActiveRoute(pathname, LinkTargets[i]) && IsActiveRoute(pathname, LinkTargets[j])
    ensures i == j
  {
    LinkTargetsDistinct();
  }

  /** `handleLogout`. `throwsAt` says which statement of the `try` block
      throws, if any (0: the first `removeItem`, 1: the second, 2: `clear`,
      3: starting the logout request, 4: `navigate`); the statements before
      it have run. Whichever it is, the storage ends empty and the page is
      replaced by the login page. */
  method HandleLogout(store: Storage.Store, throwsAt: Option<nat>) returns (nav: Nav)
    modifies store
    ensures store.entries == map[]
    ensures nav == Replace(LoginPath)
  {
    var thrown := throwsAt == Some(0);
    if !thrown {
      store.RemoveItem(Login.AuthenticatedKey);
      thrown := throwsAt == Some(1);
    }
    if !thrown {
      store.RemoveItem(Login.UserKey);
      thrown := throwsAt == Some(2);
    }
    if !thrown {
      store.Clear();
      thrown := throwsAt == Some(3);
    }
    if !thrown {
      // the logout request is sent and not awaited
      thrown := throwsAt == Some(4);
    }
    if !thrown {
      nav := Replace(LoginPath);
    } else {
      store.Clear();
      nav := Replace(LoginPath);
    }
  }
}
