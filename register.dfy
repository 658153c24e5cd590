/** The registration page: a fixed password-strength check made before any
    request, then the register request. Registration never touches
    storage; on success it goes to the landing page. */
module Register {
  import opened Common

  const MinLength := 8
  const SpecialChars := "!@#$%^&*(),.?\":{}|<>"

  /** The five rules, in the order they are checked. */
  datatype Rule = MinimumLength | Uppercase | Lowercase | Digit | Special

  const Rules := [MinimumLength, Uppercase, Lowercase, Digit, Special]

  /** The character classes of the four regular expressions
      `/[A-Z]/`, `/[a-z]/`, `/\d/` and `/[!@#$%^&*(),.?":{}|<>]/`
      (without the `u` flag, `\d` is the ASCII digits only). */
  predicate InClass(c: char, rule: Rule) {
    match rule
    case MinimumLength => false
    case Uppercase => 'A' <= c <= 'Z'
    case Lowercase => 'a' <= c <= 'z'
    case Digit => '0' <= c <= '9'
    case Special => c in SpecialChars
  }

  /** `regex.test(s)` for a one-character class: scans `s` for a member. */
  function Test(s: string, rule: Rule): (r: bool)
    ensures r <==> exists i :: 0 <= i < |s| && InClass(s[i], rule)
    decreases |s|
  {
    if s == [] then false
    else if InClass(s[0], rule) then true
    else
      var rest := Test(s[1..], rule);
      assert forall i :: 1 <= i < |s| ==> s[i] == s[1..][i - 1];
      rest
  }

  /** What each rule asks of a password, stated directly. */
  predicate Passes(password: string, rule: Rule) {
    match rule
    case MinimumLength => |password| >= MinLength
    case _ => exists i :: 0 <= i < |password| && InClass(password[i], rule)
  }

  function Message(rule: Rule): string {
    match rule
    case MinimumLength => "Password must be at least 8 characters long"
    case Uppercase => "Password must contain at least one uppercase letter"
    case Lowercase => "Password must contain at least one lowercase letter"
    case Digit => "Password must contain at least one number"
    case Special => "Password must contain at least one special character"
  }

  /** `validatePassword`: no message exactly when every rule passes, and
      otherwise the message of a rule that fails. */
  function ValidatePassword(password: string): (r: Option<string>)
    ensures r.None? <==> forall rule :: Passes(password, rule)
    ensures r.Some? ==> exists rule :: !Passes(password, rule) && r.value == Message(rule)
  {
    var hasUpperCase := Test(password, Uppercase);
    var hasLowerCase := Test(password, Lowercase);
    var hasNumbers := Test(password, Digit);
    var hasSpecialChar := Test(password, Special);
    if |password| < MinLength then
      assert !Passes(password, MinimumLength);
      Some(Message(MinimumLength))
    else if !hasUpperCase then
      assert !Passes(password, Uppercase);
      Some(Message(Uppercase))
    else if !hasLowerCase then
      assert !Passes(password, Lowercase);
      Some(Message(Lowercase))
    else if !hasNumbers then
      assert !Passes(password, Digit);
      Some(Message(Digit))
    else if !hasSpecialChar then
      assert !Passes(password, Special);
      Some(Message(Special))
    else
      assert Passes(password, MinimumLength) && Passes(password, Uppercase) && Passes(password, Lowercase);
      assert Passes(password, Digit) && Passes(password, Special);
      None
  }

  /** The rules are checked in order: the message is that of the first rule
      that fails. */
  lemma FirstFailingRuleReported(password: string, k: nat)
    requires k < |Rules|
    requires !Passes(password, Rules[k])
    requires forall j :: 0 <= j < k ==> Passes(password, Rules[j])
    ensures ValidatePassword(password) == Some(Message(Rules[k]))
  {
    if k >= 1 { assert Passes(password, Rules[0]); }
    if k >= 2 { assert Passes(password, Rules[1]); }
    if k >= 3 { assert Passes(password, Rules[2]); }
    if k >= 4 { assert Passes(password, Rules[3]); }
  }

  /** A short password gets the length message whatever else it holds. */
  lemma ShortPasswordLengthMessage(password: string)
    requires |password| < MinLength
    ensures ValidatePassword(password) == Some(Message(MinimumLength))
  {
  }

  /** Only the listed symbols count as special: underscore and hyphen do
      not, and a password whose symbols are all outside the list is refused
      with the special-character message once the other rules pass. */
  lemma OnlyListedSymbolsAreSpecial(password: string)
    requires forall i :: 0 <= i < |password| ==> password[i] !in SpecialChars
    requires forall rule :: rule != Special ==> Passes(password, rule)
    ensures ValidatePassword(password) == Some(Message(Special))
  {
    assert Passes(password, MinimumLength) && Passes(password, Uppercase);
    assert Passes(password, Lowercase) && Passes(password, Digit);
    assert !Passes(password, Special);
    FirstFailingRuleReported(password, 4);
  }

  /** Underscore and hyphen are not in the list. */
  lemma UnderscoreAndHyphenNotSpecial()
    ensures !InClass('_', Special) && !InClass('-', Special)
  {
  }

  /** The password `Passw0rd!` passes every rule. */
  lemma StrongPasswordAccepted()
    ensures ValidatePassword("Passw0rd!") == None
  {
    var p := "Passw0rd!";
    assert InClass(p[0], Uppercase) && InClass(p[1], Lowercase) && InClass(p[5], Digit);
    assert InClass(p[8], Special);
  }

  /** The registration form: its fields, the error shown and the loading flag. */
  class RegisterForm {
    var formData: map<string, string>
    var error: string
    var loading: bool

    ghost predicate Valid()
      reads this
    {
      "password" in formData
    }

    /** The form starts empty with the role preset to `admin`. */
    constructor ()
      ensures Valid()
      ensures formData == map["username" := "", "email" := "", "password" := "", "role" := "admin"]
      ensures error == "" && !loading
    {
      formData := map["username" := "", "email" := "", "password" := "", "role" := "admin"];
      error := "";
      loading := false;
    }

    /** `handleChange`: only the field named by the input changes. */
    method HandleChange(name: string, value: string)
      requires Valid()
      modifies this
      ensures Valid()
      ensures formData == SetField(old(formData), name, value)
      ensures error == old(error) && loading == old(loading)
    {
      formData := SetField(formData, name, value);
    }

    /** `handleSubmit`, given what the request would produce. A password
        that fails the check sets its message and sends nothing; otherwise
        the request is sent, a success goes to the landing page without
        touching storage, and a failure sets the server's message or a
        fixed one. Loading is off again on every path. */
    method HandleSubmit(response: AuthResponse) returns (sent: bool, nav: Option<Nav>)
      requires Valid()
      modifies this
      ensures Valid() && formData == old(formData)
      ensures !loading
      ensures sent <==> ValidatePassword(formData["password"]).None?
      ensures !sent ==> error == ValidatePassword(formData["password"]).value && nav == None
      ensures sent && Succeeded(response) ==> error == "" && nav == Some(Push(LandingPath))
      ensures sent && response.Responded? && !Succeeded(response) ==>
        error == OrElse(response.message, "Registration failed") && nav == None
      ensures sent && response.Threw? ==> error == "Registration failed. Please try again." && nav == None
    {
      error := "";
      loading := true;
      nav := None;
      var passwordError := ValidatePassword(formData["password"]);
      if passwordError.Some? {
        error := passwordError.value;
        loading := false;
        sent := false;
        return;
      }
      sent := true;
      match response {
        case Threw =>
          error := "Registration failed. Please try again.";
        case Responded(ok, success, message, _) =>
          if ok && success {
            nav := Some(Push(LandingPath));
          } else {
            error := OrElse(message, "Registration failed");
          }
      }
      loading := false;
    }
  }
}
