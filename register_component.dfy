/**
 * `RegisterComponent`: the registration form, its field and cross-field validators, and the gate
 * that decides whether a submission reaches the authentication service.
 */
module Register {
  import opened Wrappers

  const HomeRoute := "/"

  /** The four controls of the form, in declaration order. */
  const ControlCount := 4

  /** The form's values. */
  datatype RegisterForm = RegisterForm(name: string, email: string, password: string, confirmPassword: string)

  /** `RegisterRequest`: what is sent, the confirmation left out. */
  datatype RegisterRequest = RegisterRequest(name: string, email: string, password: string)

  /** A string's `length` in JavaScript: characters outside the Basic Multilingual Plane count twice. */
  function Utf16Length(s: string): (r: nat)
    ensures |s| <= r <= 2 * |s|
    ensures r == 0 <==> s == ""
  {
    if s == [] then 0 else (if s[0] as int > 0xFFFF then 2 else 1) + Utf16Length(s[1..])
  }

  /** `Validators.required` on a string: the empty string fails. */
  predicate Required(v: string) {
    v != ""
  }

  /** `Validators.minLength(n)`: the empty string passes (required reports it), others need `n` units. */
  predicate MinLength(v: string, n: nat) {
    v == "" || Utf16Length(v) >= n
  }

  /** `Validators.email` with Angular's pattern `matches`: the empty string passes. */
  predicate EmailFormat(v: string, matches: string -> bool) {
    v == "" || matches(v)
  }

  predicate NameValid(f: RegisterForm) {
    Required(f.name) && MinLength(f.name, 2)
  }

  predicate EmailValid(f: RegisterForm, matches: string -> bool) {
    Required(f.email) && EmailFormat(f.email, matches)
  }

  predicate PasswordValid(f: RegisterForm) {
    Required(f.password) && MinLength(f.password, 6)
  }

  predicate ConfirmValid(f: RegisterForm) {
    Required(f.confirmPassword)
  }

  /** `passwordMatchValidator`: both filled in and different. */
  predicate Mismatch(f: RegisterForm) {
    f.password != "" && f.confirmPassword != "" && f.password != f.confirmPassword
  }

  /** `registerForm.valid`: every control valid and no group error. */
  predicate FormValid(f: RegisterForm, matches: string -> bool) {
    NameValid(f) && EmailValid(f, matches) && PasswordValid(f) && ConfirmValid(f) && !Mismatch(f)
  }

  /** `hasOnlyMinorValidationErrors`. */
  predicate HasOnlyMinorValidationErrors(f: RegisterForm, matches: string -> bool) {
    if Mismatch(f) then false else !NameValid(f) || !EmailValid(f, matches) || !PasswordValid(f)
  }

  /** The condition `onSubmit` tests before registering. */
  predicate SubmitAllowed(f: RegisterForm, matches: string -> bool) {
    FormValid(f, matches) || HasOnlyMinorValidationErrors(f, matches)
  }

  /**
   * The validators in plain terms: a value of at least `n` characters always meets minLength(n), a
   * non-empty one with fewer than `n` UTF-16 units never does, and the empty string is left to
   * `required`, which is the only validator it fails.
   */
  lemma FieldValidators(v: string, n: nat, matches: string -> bool)
    ensures |v| >= n ==> MinLength(v, n)
    ensures v != "" && Utf16Length(v) < n ==> !MinLength(v, n)
    ensures v == "" ==> !Required(v) && MinLength(v, n) && EmailFormat(v, matches)
  {
  }

  /**
   * A valid form in plain terms: a name of at least two units, an email the pattern accepts, a
   * password of at least six units and a confirmation equal to it.
   */
  lemma FormValidMeaning(f: RegisterForm, matches: string -> bool)
    ensures FormValid(f, matches) <==>
      && Utf16Length(f.name) >= 2
      && f.email != "" && matches(f.email)
      && Utf16Length(f.password) >= 6
      && f.confirmPassword == f.password
  {
  }

  /** The two halves of the gate never overlap: a valid form has no "minor" errors. */
  lemma MinorErrorsExcludeValid(f: RegisterForm, matches: string -> bool)
    ensures !(FormValid(f, matches) && HasOnlyMinorValidationErrors(f, matches))
    ensures SubmitAllowed(f, matches) && !FormValid(f, matches) ==> HasOnlyMinorValidationErrors(f, matches)
  {
  }

  /**
   * What the gate actually lets through: anything without a password mismatch, except a form whose
   * name, email and password are all valid but whose confirmation is empty.
   */
  lemma SubmitGate(f: RegisterForm, matches: string -> bool)
    ensures SubmitAllowed(f, matches) <==>
      !Mismatch(f) && (ConfirmValid(f) || !NameValid(f) || !EmailValid(f, matches) || !PasswordValid(f))
  {
  }

  /** A mismatch always blocks, and the mismatch needs both passwords filled in. */
  lemma MismatchBlocks(f: RegisterForm, matches: string -> bool)
    ensures Mismatch(f) ==> !SubmitAllowed(f, matches)
    ensures f.password == "" || f.confirmPassword == "" ==> !Mismatch(f)
  {
  }

  /** The untouched, all-empty form passes the gate, although every required field is missing. */
  lemma EmptyFormPasses(matches: string -> bool)
    ensures !FormValid(RegisterForm("", "", "", ""), matches)
    ensures SubmitAllowed(RegisterForm("", "", "", ""), matches)
  {
  }

  /**
   * A name of one UTF-16 unit fails minLength(2), which makes every error "minor": the form passes
   * whatever else it holds, as long as the passwords agree.
   */
  lemma ShortNamePasses(f: RegisterForm, matches: string -> bool)
    requires |f.name| == 1 && f.name[0] as int <= 0xFFFF && !Mismatch(f)
    ensures !NameValid(f)
    ensures SubmitAllowed(f, matches)
  {
    assert f.name[1..] == "";
  }

  class RegisterComponent {
    var form: RegisterForm
    /** The `touched` flag of each control, in declaration order. */
    const touched: array<bool>
    /** The route the component last asked the router for. */
    var lastNavigation: Option<string>

    constructor ()
      ensures form == RegisterForm("", "", "", "") && lastNavigation == None
      ensures fresh(touched) && touched.Length == ControlCount
      ensures forall i :: 0 <= i < touched.Length ==> !touched[i]
    {
      form := RegisterForm("", "", "", "");
      touched := new bool[ControlCount](_ => false);
      lastNavigation := None;
    }

    /** `markFormGroupTouched`: every control of the form is marked touched. */
    method MarkFormGroupTouched()
      modifies touched
      ensures forall i :: 0 <= i < touched.Length ==> touched[i]
    {
      var i := 0;
      while i < touched.Length
        invariant 0 <= i <= touched.Length
        invariant forall j :: 0 <= j < i ==> touched[j]
      {
        touched[i] := true;
        i := i + 1;
      }
    }

    /**
     * `onSubmit`: every control is marked touched; when the gate lets the form through, its values
     * without the confirmation are sent (`payload`), and a successful registration (`registered`)
     * leads to the home page.
     */
    method OnSubmit(matches: string -> bool, registered: bool) returns (payload: Option<RegisterRequest>)
      modifies touched, this`lastNavigation
      ensures forall i :: 0 <= i < touched.Length ==> touched[i]
      ensures payload.Some? <==> SubmitAllowed(form, matches)
      ensures payload.Some? ==> payload.value == RegisterRequest(form.name, form.email, form.password)
      ensures lastNavigation == if payload.Some? && registered then Some(HomeRoute) else old(lastNavigation)
    {
      MarkFormGroupTouched();
      if SubmitAllowed(form, matches) {
        payload := Some(RegisterRequest(form.name, form.email, form.password));
        if registered {
          lastNavigation := Some(HomeRoute);
        }
      } else {
        payload := None;
      }
    }
  }
}
