/** The route guard. `ProtectedRoute` looks at nothing but its
    `isAuthenticated` prop: falsy (absent included) gives a replacing
    redirect to the login page, truthy gives its children back untouched.
    There is no third, "still checking" outcome. */
module RouteGuard {
  import opened Common

  /** The React elements the route table is made of. */
  datatype Element =
    | Navigate(to: string, replace: bool)
    | Component(name: string)
    | Layout(child: Element)
    | Guard(isAuthenticated: Option<bool>, child: Element)

  function Size(e: Element): (n: nat)
    ensures n >= 1
  {
    match e
    case Navigate(_, _) => 1
    case Component(_) => 1
    case Layout(c) => 1 + Size(c)
    case Guard(_, c) => 1 + Size(c)
  }

  /** A prop that may be left out; `Some(b)` carries the truthiness of the
      value that was passed. */
  predicate IsTruthy(prop: Option<bool>) {
    prop.Some? && prop.value
  }

  /** `ProtectedRoute({ children, isAuthenticated })`. One of exactly two
      outcomes, chosen by the prop alone; the result is never larger than
      the children. */
  function ProtectedRoute(children: Element, isAuthenticated: Option<bool>): (r: Element)
    ensures r == children || r == Navigate(LoginPath, true)
    ensures IsTruthy(isAuthenticated) ==> r == children
    ensures !IsTruthy(isAuthenticated) ==> r == Navigate(LoginPath, true)
    ensures Size(r) <= Size(children)
  {
    if !IsTruthy(isAuthenticated) then Navigate(LoginPath, true) else children
  }

  /** What the browser ends up with once an element has rendered: a
      redirect, or a page component, inside the dashboard layout or not. */
  datatype Outcome = Redirect(to: string, replace: bool) | Show(component: string, inLayout: bool)

  /** Renders an element tree, evaluating every guard it meets. */
  function Render(e: Element): Outcome
    decreases Size(e)
  {
    match e
    case Navigate(to, replace) => Redirect(to, replace)
    case Component(name) => Show(name, false)
    case Layout(c) =>
      (match Render(c)
       case Redirect(to, replace) => Redirect(to, replace)
       case Show(name, _) => Show(name, true))
    case Guard(prop, c) => Render(ProtectedRoute(c, prop))
  }

  /** A guard whose prop is falsy never lets anything inside it show,
      however deep the guarded tree. */
  lemma FalsyGuardRedirects(prop: Option<bool>, children: Element)
    requires !IsTruthy(prop)
    ensures Render(Guard(prop, children)) == Redirect(LoginPath, true)
  {
  }

  /** A guard whose prop is truthy renders exactly what its children render. */
  lemma TruthyGuardTransparent(prop: Option<bool>, children: Element)
    requires IsTruthy(prop)
    ensures Render(Guard(prop, children)) == Render(children)
  {
  }
}
