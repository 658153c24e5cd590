# Paharpur admin dashboard: session layer and editing rules in Dafny

This project models the client-side core of a React admin dashboard:

- the shared HTTP client's request and response interceptors, over the browser's `localStorage`;
- the route guard and the application's route table;
- the login, logout and registration flows, including the password-strength check;
- the public-id extraction used to delete uploaded images;
- the list-editing rules of the forms for initiatives, the header, the footer and the admin-accounts page.

## How the model is laid out

- **Pure values** become datatypes and functions, with their properties as `ensures` clauses and lemmas:
  - header maps, element trees, routes, initiatives, sections;
  - the password check;
  - the string and list idioms (`split`, `trim`, `filter`, `find`, `map`).
- **Mutable state** becomes classes:
  - `localStorage` is `Storage.Store`;
  - request configs and `window.location` are `Api.RequestConfig` and `Api.Location`;
  - each component's `useState` fields are the fields of a form class (`Login.LoginForm`, `EditFooter.EditFooterForm`, …). The create-initiative form's `error` and `success` fields are the one exception: only its submit handler sets them, and that handler is left out (see "## Left out").

  A form's handler methods modify the form itself, and also the storage where the source writes `localStorage` (`Login.LoginForm.HandleSubmit`). The two interceptors are module-level methods, because the source defines them outside any component. The logout handler is a module-level method too: `NavBar` keeps no `useState` of its own, so there is no component state for it to belong to. They modify the objects they are given: the config (`Api.InterceptRequest`), the storage and the location (`Api.InterceptResponse`), or the storage (`NavBar.HandleLogout`). Each method's `ensures` ties the new state to the pure functions. Every backend answer is a parameter of the handler that awaits it: a response, or the fact that the call threw.
- **The session** (`session.dfy`) puts the pieces together:
  - login writes no `token`;
  - so the interceptor never adds a bearer credential in any flow the application contains;
  - after a logout, or a 401 on a request through the shared client, nothing is stored;
  - the landing page and every side-bar link lie behind a guard that `App` never gives a prop, so they all render as the redirect to `/login`.

## Notable behaviour of the code

- **The guard has two outcomes.** `ProtectedRoute` either redirects or returns its children; it has no loading state.
- **Submissions and 401s are not guarded.** Login submissions are not guarded against a second submission in flight. A 401 answered to a request made through the shared client (only the header editor's two calls use it) clears the storage and redirects, with no one-shot flag; `Api.UnauthorizedTwice` shows that a repeat is harmless. A 401 on the other pages' requests, which use `fetch` or plain `axios`, changes no storage.
- **Login never writes `token`.** It writes only `isAuthenticated` and `user`, while the request interceptor reads `token`. So no flow in the application adds a bearer credential (`Session.LoginLeavesRequestHeaders`).
- **`App` passes no `isAuthenticated`** to `ProtectedRoute`, so every guarded path redirects to `/login` (`App.NoDashboardPageEverShows`).

## Model

| member | source | states |
|---|---|---|
| Strings.Split | src/utils/cloudinaryUpload.js:22 | `split` with a one-character separator gives at least one piece, and no piece contains the separator |
| Strings.JoinSplit | src/utils/cloudinaryUpload.js:22 | joining the pieces of a split with the separator gives back the original text |
| Strings.SplitWithoutSeparator | src/utils/cloudinaryUpload.js:22 | text without the separator splits into itself alone |
| Strings.SplitFirst | src/utils/cloudinaryUpload.js:22 | the first piece is a prefix of the text, and when shorter it is followed by the separator |
| Strings.SplitLast | src/utils/cloudinaryUpload.js:22 | the last piece is a suffix of the text, preceded by the separator when shorter; it is the whole text exactly when there is one piece |
| Strings.TrimStart | src/components/EditHeader.jsx:55 | the result is a suffix of the input, every dropped character is JavaScript white space, and it does not start with white space |
| Strings.TrimEnd | src/components/EditHeader.jsx:55 | the result is a prefix of the input, every dropped character is white space, and it does not end with white space |
| Strings.Trim | src/components/EditHeader.jsx:55 | `trim()` gives the empty string exactly when every character is JavaScript white space or a line terminator |
| ListEdits.RemoveAtSpec | src/components/CreateNew.jsx:37 | `filter((_, i) => i !== index)` drops exactly position `index` and keeps the others in order; an index outside the list changes nothing |
| ListEdits.Filter | src/components/AdminAccounts.jsx:72-73 | `filter(keep)` keeps exactly the members that satisfy `keep`, each as many times as it occurs in the input; the result is no longer than the input, and is the input itself when every member is kept |
| ListEdits.FilterIsSubsequence | src/components/AdminAccounts.jsx:72-73 | a filtered list is a subsequence of the original list, in the same order |
| ListEdits.Find | src/components/ModalEdit.jsx:42-44 | `find` is absent exactly when nothing matches; otherwise it is the first matching element |
| ListEdits.ReplaceWhere | src/components/EditFooter.jsx:52-56 | `map(x => matches(x) ? y : x)` keeps the length, replaces every matching element by `y` and keeps every other element in place |
| Common.SetField | src/components/Login.jsx:48-53 | `{ ...form, [name]: value }` sets the named field, adds no other key and keeps every other field |
| Storage.Store.constructor | src/api/axios.js:15 | a fresh storage area holds nothing |
| Storage.Store.Get | src/api/axios.js:15 | `getItem` is present exactly when the key is stored, and is then the stored value |
| Storage.Store.SetItem | src/components/Login.jsx:33 | `setItem` stores the value under the key and changes no other key |
| Storage.Store.RemoveItem | src/components/NavBar.jsx:12-13 | `removeItem` removes the key and changes no other key |
| Storage.Store.Clear | src/components/NavBar.jsx:14 | `clear` leaves the storage empty |
| Api.GetToken | src/api/axios.js:14-16 | the token is present exactly when `token` is stored, and is then the stored value |
| Api.RequestHeaders | src/api/axios.js:19-28 | `Cookie` is never present; a non-empty token sets `Authorization` to `Bearer <token>`; an absent or empty token leaves `Authorization` as the caller had it; every other header is unchanged |
| Api.RequestHeadersIdempotent | src/api/axios.js:19-28 | running the request step twice gives the same headers as running it once |
| Api.AfterResponse | src/api/axios.js:33-42 | only a rejection carrying a 401 response changes state, and it leaves the storage empty and the address at `/login`; no step produces a token that was not already stored |
| Api.UnauthorizedTwice | src/api/axios.js:36-39 | a second 401 after a first changes nothing more |
| Api.RequestConfig.constructor | src/api/axios.js:20 | the config holds the headers it was given |
| Api.Location.constructor | src/api/axios.js:38 | the location holds the address it was given |
| Api.InterceptRequest | src/api/axios.js:19-30 | the interceptor rewrites `config.headers` in place to `RequestHeaders` of the stored entries and returns the same config |
| Api.InterceptResponse | src/api/axios.js:33-42 | every outcome is passed on unchanged, and storage and address move as `AfterResponse` says |
| RouteGuard.ProtectedRoute | src/components/ProtectedRoute.jsx:4-11 | there are exactly two outcomes, chosen by the prop alone: a truthy prop gives the children back, and a falsy or absent prop gives the replacing redirect to `/login` |
| RouteGuard.FalsyGuardRedirects | src/components/ProtectedRoute.jsx:6-8 | a guard with a falsy prop renders as the redirect to `/login`, whatever it wraps |
| RouteGuard.TruthyGuardTransparent | src/components/ProtectedRoute.jsx:10 | a guard with a truthy prop renders exactly as its children do |
| App.RouteTable | src/App.jsx:40-114 | the table has two public routes and nine guarded ones |
| App.TableShape | src/App.jsx:40-114 | the public pages are unguarded; `/` and the eight dashboard paths are each a guard around the layout around their page; no path appears twice |
| App.ResolveAt | src/App.jsx:38-118 | in a table with distinct paths, every route's own path resolves to its element |
| App.UnknownPathRedirects | src/App.jsx:117 | a path in no route resolves to the catch-all redirect to `/login` |
| App.PublicPagesUnguarded | src/App.jsx:40-41 | `/register` and `/login` resolve to their pages without a guard |
| App.GuardedPathsRedirect | src/App.jsx:44-114 | each of the nine guarded paths is a guard with no prop around the layout, and renders as the redirect to `/login` |
| App.NoDashboardPageEverShows | src/App.jsx:38-118 | as written, every address ends at the login redirect, the registration page or the login page |
| App.AuthenticatedRootRedirectsToLanding | src/App.jsx:44-50 | with a truthy prop, `/` would redirect to `/edit-header` |
| App.AuthenticatedPagesShow | src/App.jsx:52-114 | with a truthy prop, every dashboard path would show its page inside the layout |
| Login.StorageAfter | src/components/Login.jsx:32-36 | success writes `isAuthenticated = 'true'`, and writes `user` exactly when the answer has one; failure changes nothing; no other key (the token included) changes |
| Login.ErrorAfter | src/components/Login.jsx:39-45 | the error is empty exactly on success; a refused login shows the server's message or the fixed one; a throw shows the network message |
| Login.LoginForm.constructor | src/components/Login.jsx:6-10 | the form starts with empty email and password and no error |
| Login.LoginForm.HandleChange | src/components/Login.jsx:48-53 | only the named field changes |
| Login.LoginForm.HandleSubmit | src/components/Login.jsx:12-46 | storage and error change as `StorageAfter` and `ErrorAfter` say, and the page goes to `/edit-header` only on success |
| NavBar.IsActiveRoute | src/components/NavBar.jsx:41-43 | a link is active exactly when the current path equals its target |
| NavBar.LinkTargetsDistinct | src/components/NavBar.jsx:52-146 | no two side-bar links have the same target |
| NavBar.AtMostOneActive | src/components/NavBar.jsx:41-43 | at most one link is highlighted at a time |
| NavBar.HandleLogout | src/components/NavBar.jsx:8-39 | whichever statement throws, if any, the storage ends empty and the page is replaced by `/login`; the logout request's outcome plays no part |
| Register.Test | src/components/Register.jsx:25-28 | a one-class regular expression matches exactly when some character of the password is in the class |
| Register.ValidatePassword | src/components/Register.jsx:23-47 | there is no message exactly when all five rules pass; otherwise the message belongs to a rule that fails |
| Register.FirstFailingRuleReported | src/components/Register.jsx:30-44 | the rules are tested in order: the message is that of the first failing rule |
| Register.ShortPasswordLengthMessage | src/components/Register.jsx:30-32 | a password shorter than 8 gets the length message whatever else it holds |
| Register.OnlyListedSymbolsAreSpecial | src/components/Register.jsx:28 | a password with no listed symbol that passes the other rules is refused with the special-character message |
| Register.UnderscoreAndHyphenNotSpecial | src/components/Register.jsx:28 | `_` and `-` are not special characters |
| Register.StrongPasswordAccepted | src/components/Register.jsx:23-46 | `Passw0rd!` passes every rule |
| Register.RegisterForm.constructor | src/components/Register.jsx:7-14 | the form starts empty with the role `admin`, no error and not loading |
| Register.RegisterForm.HandleChange | src/components/Register.jsx:16-21 | only the named field changes |
| Register.RegisterForm.HandleSubmit | src/components/Register.jsx:49-87 | a password that fails the check sets its message and sends nothing; otherwise success goes to `/edit-header`, and a refusal or a throw sets its message; loading is off on every path and storage is not touched |
| Cloudinary.PublicId | src/utils/cloudinaryUpload.js:22 | the id holds no `/` or `.`; it is a prefix of the last `/`-segment, followed there by `.` when shorter; it is the whole segment when the segment has no `.` |
| Cloudinary.TrailingSlashEmptyId | src/utils/cloudinaryUpload.js:22 | a URL ending in `/` has an empty id |
| Cloudinary.NoSlashWholeUrl | src/utils/cloudinaryUpload.js:22 | a URL without `/` is its own last segment |
| Cloudinary.PublicIdInUrl | src/utils/cloudinaryUpload.js:22 | the last segment ends the URL and is preceded by `/` when shorter than it; the id starts that segment |
| Cloudinary.DestroyBody | src/utils/cloudinaryUpload.js:28-31 | the destroy body carries the extracted id and the preset `paharpur` |
| Initiatives.Blank | src/components/CreateNew.jsx:6-14 | a new initiative has no id, an empty gallery, and exactly the six text fields, each empty |
| Initiatives.ChangeField | src/components/CreateNew.jsx:19-22 | only the named text field changes; the id and the gallery stay |
| Initiatives.AddGalleryImage | src/components/CreateNew.jsx:24-32 | a non-empty draft is appended at the end of the gallery and nothing else moves; an empty draft changes nothing |
| Initiatives.RemoveGalleryImage | src/components/CreateNew.jsx:34-39 | exactly position `index` leaves the gallery and the others keep their order; an index outside the gallery changes nothing |
| CreateNew.CreateNewForm.constructor | src/components/CreateNew.jsx:6-15 | the form starts blank with an empty draft |
| CreateNew.CreateNewForm.HandleChange | src/components/CreateNew.jsx:19-22 | the initiative changes as `ChangeField` says, and the draft stays |
| CreateNew.CreateNewForm.HandleAddGalleryImage | src/components/CreateNew.jsx:24-32 | the initiative changes as `AddGalleryImage` says, and the draft is empty afterwards |
| CreateNew.CreateNewForm.HandleRemoveGalleryImage | src/components/CreateNew.jsx:34-39 | the initiative changes as `RemoveGalleryImage` says |
| ModalEdit.AfterSelection | src/components/ModalEdit.jsx:38-49 | nothing changes without a picked id, with an empty list, or when no initiative carries the id; when one does, the result is exactly the first initiative carrying it |
| ModalEdit.ModalEditForm.constructor | src/components/ModalEdit.jsx:5-19 | the form starts blank, loading, with no error and no success |
| ModalEdit.ModalEditForm.LoadInitiatives | src/components/ModalEdit.jsx:21-36 | a loaded list replaces the list; a failure sets the load error; loading is off on both paths |
| ModalEdit.ModalEditForm.SelectInitiative | src/components/ModalEdit.jsx:38-49 | the edited initiative becomes `AfterSelection` of the list and the picked id |
| ModalEdit.ModalEditForm.HandleChange | src/components/ModalEdit.jsx:51-54 | the initiative changes as `ChangeField` says; nothing else changes |
| ModalEdit.ModalEditForm.HandleAddGalleryImage | src/components/ModalEdit.jsx:56-64 | the initiative changes as `AddGalleryImage` says and the draft is empty afterwards |
| ModalEdit.ModalEditForm.HandleRemoveGalleryImage | src/components/ModalEdit.jsx:66-71 | the initiative changes as `RemoveGalleryImage` says |
| ModalEdit.ModalEditForm.HandleSubmit | src/components/ModalEdit.jsx:73-92 | the update is sent exactly when an id is picked; without one the id error is set; a successful update sets success and a failed one the save error |
| EditHeader.AddLink | src/components/EditHeader.jsx:54-62 | a draft whose name and URL both hold a non-white-space character is appended at the end as typed; any other draft leaves the links unchanged |
| EditHeader.ChangeDraft | src/components/EditHeader.jsx:46-52 | the `name` input changes only the name and the `url` input only the URL |
| EditHeader.EditHeaderForm.constructor | src/components/EditHeader.jsx:5-13 | the header starts empty and the draft blank |
| EditHeader.EditHeaderForm.HandleLogoChange | src/components/EditHeader.jsx:28-30 | only the logo URL changes |
| EditHeader.EditHeaderForm.HandlePhoneChange | src/components/EditHeader.jsx:32-37 | only the phone changes; the e-mail, the logo, the links and the draft stay |
| EditHeader.EditHeaderForm.HandleEmailChange | src/components/EditHeader.jsx:39-44 | only the e-mail changes; the phone, the logo, the links and the draft stay |
| EditHeader.EditHeaderForm.HandleNavigationLinkChange | src/components/EditHeader.jsx:46-52 | the draft changes as `ChangeDraft` says; the header stays |
| EditHeader.EditHeaderForm.HandleAddNavigationLink | src/components/EditHeader.jsx:54-62 | the links change as `AddLink` says; the draft is reset only when a link was added |
| EditHeader.EditHeaderForm.RemoveNavigationLink | src/components/EditHeader.jsx:129-132 | exactly link `index` goes and the others keep their order; the rest of the header and the draft stay |
| EditFooter.LoadedSections | src/components/EditFooter.jsx:16-29 | an array answer becomes the section list, and a non-array answer or a throw gives no sections |
| EditFooter.ReplaceSelected | src/components/EditFooter.jsx:52-56 | sections with the picked id become the answered section; all others stay in place; the length is kept; the ids are kept when the answer has the picked id |
| EditFooter.ReplaceAbsentIsIdentity | src/components/EditFooter.jsx:88-92 | a picked id that no section carries leaves the list as it was |
| EditFooter.ReplaceSelectedIdempotent | src/components/EditFooter.jsx:70-74 | applying the same answer twice gives the same list as applying it once |
| EditFooter.EditFooterForm.constructor | src/components/EditFooter.jsx:5-10 | the form starts with no sections, no selection, blank drafts and no subitem being edited |
| EditFooter.EditFooterForm.FetchFooterSections | src/components/EditFooter.jsx:16-29 | the section list becomes `LoadedSections` of the answer; nothing else changes |
| EditFooter.EditFooterForm.SelectSection | src/components/EditFooter.jsx:129 | clicking a section picks its id |
| EditFooter.EditFooterForm.StartEditing | src/components/EditFooter.jsx:186-188 | the subitem is marked for editing and its name and URL are copied into the edit buffer |
| EditFooter.EditFooterForm.CancelEditing | src/components/EditFooter.jsx:237 | only the editing marker is cleared |
| EditFooter.EditFooterForm.HandleAddSection | src/components/EditFooter.jsx:31-43 | nothing is sent with an empty title; a successful add appends the answered section at the end and resets the draft; a failed one changes nothing |
| EditFooter.EditFooterForm.HandleAddSubitem | src/components/EditFooter.jsx:45-61 | sent exactly when a section is picked and the draft's name and URL are non-empty; on success the picked section is replaced as `ReplaceSelected` says and the draft is reset; otherwise nothing changes |
| EditFooter.EditFooterForm.HandleUpdateSubitem | src/components/EditFooter.jsx:63-80 | sent exactly when a section is picked and the buffer's name and URL are non-empty; on success the section is replaced, the editing marker cleared and the buffer reset |
| EditFooter.EditFooterForm.HandleDeleteSubitem | src/components/EditFooter.jsx:82-96 | sent exactly when a section is picked; on success the picked section is replaced |
| AdminAccounts.Displayed | src/components/AdminAccounts.jsx:72-73 | the signed-in admin is never listed; every other admin is, as many times as the backend lists it; with no current id every admin is |
| AdminAccounts.DisplayedKeepsOrder | src/components/AdminAccounts.jsx:72-73 | the listed admins are a subsequence of the backend's list, in its order |
| AdminAccounts.Render | src/components/AdminAccounts.jsx:36-86 | the page shows loading while loading, the error when there is one, and otherwise the listed admins |
| AdminAccounts.AdminAccountsPage.constructor | src/components/AdminAccounts.jsx:4-7 | the page starts empty, loading, with no user and no error |
| AdminAccounts.AdminAccountsPage.FetchAdmins | src/components/AdminAccounts.jsx:10-31 | an ok answer sets the admins and reads the stored user; a refusal sets the fetch-failed error; a throw or an unparsable stored user sets the fetch error (an absent user parses to `null`); loading is off on every path and storage is not written |
| Session.LoginLeavesRequestHeaders | src/components/Login.jsx:32-36 | any login outcome leaves the interceptor's headers as they were before the login |
| Session.NoTokenNoBearer | src/api/axios.js:21-26 | without a stored token, a request goes out with its own headers less `Cookie` |
| Session.FreshLoginSendsNoAuthorization | src/components/Login.jsx:32-36 | after a login in a fresh browser, a request with no `Authorization` of its own still carries none |
| Session.NoBearerAfterUnauthorized | src/api/axios.js:36-39 | after a 401, no request gets a bearer credential |
| Session.LandingPageRedirectsToLogin | src/components/Login.jsx:38 | the page a successful login goes to renders as the redirect to `/login` |
| Session.NavLinksAreGuarded | src/components/NavBar.jsx:52-146 | every side-bar link is a guarded path and renders as the redirect to `/login` |
| Session.SignInAndOut | src/components/NavBar.jsx:8-39 | over login, a request, logout and another request in a fresh browser: neither request gets a bearer credential or keeps `Cookie`; login navigates only on success; logout always ends on `/login` with nothing stored |

## Left out

- Network transport (`fetch`, `axios` calls, the image upload request): every backend answer is a parameter of the handler that awaits it. The request URLs, including the subitem id in the footer's update and delete URLs, are not modelled.
- JSON: parsing response bodies and `JSON.stringify`/`JSON.parse` of the stored user. The stored user is opaque text. Where the admin page needs its `_id`, that id is a parameter. Whether parsing succeeds is a parameter of `AdminAccounts.AdminAccountsPage.FetchAdmins`.
- String length and character classes are over Dafny characters (code points), not UTF-16 code units. `Register.ValidatePassword` counts code points for the 8-character minimum.
- Initiatives.ChangeField: an input named `gallery` or `_id` would overwrite the gallery or the id in the source; in the model, text fields are a separate map, so such a name only adds a text field. The forms have no such input.
- EditHeader.ChangeDraft: an input name other than `name` or `url` would add a key to the draft object in the source; the model's draft has only the two fields, so such a change is dropped. The form has no other input.
- The request interceptor's error handler (`Promise.reject(error)`, src/api/axios.js:29) and the response interceptor's pass-through of successes are not separate members; `Api.InterceptResponse` returns every outcome unchanged.
- Async interleaving: the not-awaited logout request, overlapping submissions, React's batching of state updates and `setTimeout` message resets.
- `console.*`, toasts, `window.confirm` and JSX rendering. Besides the route elements that `RouteGuard.Render` renders, `AdminAccounts.Render` is the only component's markup modelled, because it decides whether the list is shown.
- The form submit handlers of the create-initiative and header pages and the header page's initial load. These send or receive server data without a rule to state.
- CreateNew.CreateNewForm: the component's `error` and `success` state (src/components/CreateNew.jsx:16-17) is not modelled. Only the left-out submit handler sets it.
- `HeroTextEdit`, `BannerEdit`, `EnquiryList`, `TopNavbar` and `ConfirmationModal`. These components only fetch, hold and send server data or draw UI.
- React Router's case-insensitive matching and route ranking. Route lookup is by exact path.
