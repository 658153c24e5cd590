/** Values shared by the dashboard's components: optional values, JavaScript
    truthiness of strings, the `x || fallback` idiom, navigation requests,
    the `{ ...form, [name]: value }` update and the body the auth endpoints
    answer with. */
module Common {

  datatype Option<+T> = None | Some(value: T)

  /** A JavaScript string is truthy exactly when it is not empty. */
  predicate Truthy(s: string) {
    s != ""
  }

  /** A possibly absent string used as a condition (`if (x)`, `!x`). */
  predicate PresentAndTruthy(x: Option<string>) {
    x.Some? && Truthy(x.value)
  }

  /** `x || fallback` where `x` may be absent. */
  function OrElse(x: Option<string>, fallback: string): string {
    if PresentAndTruthy(x) then x.value else fallback
  }

  /** A request made through react-router's `navigate`: a push, or a
      replacement of the current history entry (`{ replace: true }`). */
  datatype Nav = Push(to: string) | Replace(to: string)

  const LoginPath := "/login"
  const LandingPath := "/edit-header"

  /** `{ ...form, [name]: value }` on a form object whose fields are strings:
      the named field takes the new value and every other field keeps its own. */
  function SetField(form: map<string, string>, name: string, value: string): (r: map<string, string>)
    ensures name in r && r[name] == value
    ensures r.Keys == form.Keys + {name}
    ensures forall k :: k in form && k != name ==> r[k] == form[k]
  {
    form[name := value]
  }

  /** What the login and register handlers get back from `fetch` followed by
      `response.json()`: either one of the two threw, or a response arrived
      with its `ok` flag and the parsed body's `success`, `message` and `user`
      (the user as the opaque text that `JSON.stringify` would store). */
  datatype AuthResponse =
    | Threw
    | Responded(ok: bool, success: bool, message: Option<string>, user: Option<string>)

  /** `response.ok && data.success` */
  predicate Succeeded(r: AuthResponse) {
    r.Responded? && r.ok && r.success
  }
}
