/** The login page. On submit it clears the error, posts the form and,
    when the answer is `ok` with `success`, marks the session authenticated
    in storage (and stores the user when the answer carries one) before
    going to the landing page. Any other answer sets an error message and
    leaves storage alone. The page never stores a token. */
module Login {
  import opened Common
  import Storage

  const AuthenticatedKey := "isAuthenticated"
  const UserKey := "user"
  const InvalidCredentials := "Invalid email or password"
  const NetworkError := "Network error. Please try again."

  /** The storage contents after a submission that got `response`. A
      success writes `isAuthenticated` = `'true'` and, only when the answer
      has a user, `user`; every other key, the token among them, keeps its
      value, and a failure changes nothing. */
  function StorageAfter(storage: map<string, string>, response: AuthResponse): (r: map<string, string>)
    ensures Succeeded(response) ==> AuthenticatedKey in r && r[AuthenticatedKey] == "true"
    ensures Succeeded(response) && response.user.Some? ==> UserKey in r && r[UserKey] == response.user.value
    ensures !(Succeeded(response) && response.user.Some?) ==>
      (UserKey in r <==> UserKey in storage) && (UserKey in storage ==> r[UserKey] == storage[UserKey])
    ensures !Succeeded(response) ==> r == storage
    ensures forall k :: k != AuthenticatedKey && k != UserKey ==>
      (k in r <==> k in storage) && (k in r ==> r[k] == storage[k])
  {
    if Succeeded(response) then
      var marked := storage[AuthenticatedKey := "true"];
      if response.user.Some? then marked[UserKey := response.user.value] else marked
    else storage
  }

  /** The message a submission leaves on the page: none on success, the
      server's message (or the fixed one when it is empty or missing) on a
      refused login, the network message when the request threw. */
  function ErrorAfter(response: AuthResponse): (e: string)
    ensures Succeeded(response) <==> e == ""
    ensures response.Threw? ==> e == NetworkError
    ensures response.Responded? && !Succeeded(response) ==>
      e == (if PresentAndTruthy(response.message) then response.message.value else InvalidCredentials)
  {
    match response
    case Threw => NetworkError
    case Responded(_, _, message, _) =>
      if Succeeded(response) then "" else OrElse(message, InvalidCredentials)
  }

  class LoginForm {
    var formData: map<string, string>
    var error: string

    constructor ()
      ensures formData == map["email" := "", "password" := ""]
      ensures error == ""
    {
      formData := map["email" := "", "password" := ""];
      error := "";
    }

    /** `handleChange`: only the field named by the input changes. */
    method HandleChange(name: string, value: string)
      modifies this
      ensures formData == SetField(old(formData), name, value)
      ensures error == old(error)
    {
      formData := SetField(formData, name, value);
    }

    /** `handleSubmit`, given what the request produced. The storage is
        written only on success and the landing page is requested only
        then. */
    method HandleSubmit(store: Storage.Store, response: AuthResponse) returns (nav: Option<Nav>)
      modifies this, store
      ensures store.entries == StorageAfter(old(store.entries), response)
      ensures error == ErrorAfter(response)
      ensures formData == old(formData)
      ensures nav == if Succeeded(response) then Some(Push(LandingPath)) else None
    {
      error := "";
      nav := None;
      match response
      case Threw =>
        error := NetworkError;
      case Responded(ok, success, message, user) =>
        if ok && success {
          store.SetItem(AuthenticatedKey, "true");
          if user.Some? {
            store.SetItem(UserKey, user.value);
          }
          nav := Some(Push(LandingPath));
        } else {
          error := OrElse(message, InvalidCredentials);
        }
    }
  }
}
