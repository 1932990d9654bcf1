/**
 * The two sign-in dialogs: the one the landing page mounts, which reports
 * errors inline, and the landing-section variant, which reports them with a
 * toast. Both build the same request body: `{}` to sign in, and the chosen
 * role with the trimmed company name to register.
 */
module LoginForms {
  import opened Wrappers
  import opened Text
  import opened Json
  import opened Http
  import opened Schema
  import opened Registration

  datatype Mode = SignInMode | RegisterMode

  /** What pressing the submit button gives: a body for `/check-user`, or nothing when a field is missing. */
  datatype Submission = Submitted(extraInfo: map<string, Value>) | Incomplete

  const MissingFields := "Role and company are required."

  /** `handleSubmit`'s choice of request body, shared by both dialogs. */
  function FormPayload(mode: Mode, role: string, company: string): (s: Submission)
    ensures mode == SignInMode ==> s == Submitted(map[])
    ensures mode == RegisterMode ==> (s.Incomplete? <==> role == "" || company == "")
    ensures s.Submitted? && mode == RegisterMode ==>
      s.extraInfo.Keys == {"role", "company_name"}
      && s.extraInfo["role"] == Str(role) && s.extraInfo["company_name"] == Str(Strip(company))
  {
    match mode
    case SignInMode => Submitted(map[])
    case RegisterMode =>
      if role == "" || company == "" then Incomplete
      else Submitted(map["role" := Str(role), "company_name" := Str(Strip(company))])
  }

  /** The sign-in body is the one the server reads as login mode. */
  lemma SignInBodyIsLoginMode(role: string, company: string)
    ensures var s := FormPayload(SignInMode, role, company);
      s.Submitted? && IsLoginMode(Some(s.extraInfo))
  {
  }

  /**
   * A registration body is never read as login mode, and the server reads
   * back the role stripped and the company as the dialog trimmed it.
   */
  lemma RegisterBodyReadBack(role: string, company: string)
    requires role != "" && company != ""
    ensures var s := FormPayload(RegisterMode, role, company);
      s.Submitted? && !IsLoginMode(Some(s.extraInfo))
      && RoleField(s.extraInfo) == Some(Strip(role))
      && CompanyField(s.extraInfo) == Strip(company)
  {
    var body := map["role" := Str(role), "company_name" := Str(Strip(company))];
    assert "role" in body;
    StripUnchanged(Strip(company));
  }

  /** The roles the dialog offers have no surrounding spaces to strip. */
  lemma RoleUnstripped(role: string)
    requires role == "HR" || role == "Recruiter"
    ensures Strip(role) == role
  {
    if role == "HR" {
      assert role[0] == 'H' && role[|role| - 1] == 'R';
    } else {
      assert role[0] == 'R' && role[|role| - 1] == 'r';
    }
    StripUnchanged(role);
  }

  /**
   * A company name of spaces passes the dialog's check, which looks at the
   * untrimmed text, and the server then refuses it as missing.
   */
  lemma BlankCompanyRefusedByServer(users: seq<UserRow>, nextId: nat, t: IdToken, role: string, company: string)
    requires t.TokenVerified?
    requires role == "HR" || role == "Recruiter"
    requires company != "" && AllSpace(company)
    ensures var s := FormPayload(RegisterMode, role, company);
      s.Submitted? && Decide(users, nextId, t, Some(s.extraInfo)) == Refuse(HttpError(400, RolesRequired))
  {
    var s := FormPayload(RegisterMode, role, company);
    StripEmptyIffBlank(company);
    RoleUnstripped(role);
    assert "role" in s.extraInfo;
    assert CompanyField(s.extraInfo) == "";
    FieldsRequired(users, nextId, t, s.extraInfo);
  }

  /** The landing-section dialog: missing fields are reported with a toast. */
  class LandingLoginModal {
    var open: bool
    var mode: Mode
    var role: string
    var company: string
    var sent: seq<map<string, Value>>
    var toasts: seq<string>

    constructor ()
      ensures !open && mode == SignInMode && role == "" && company == ""
      ensures sent == [] && toasts == []
    {
      open := false;
      mode := SignInMode;
      role := "";
      company := "";
      sent := [];
      toasts := [];
    }

    /** The `open` prop changes; closing forgets the form and returns to sign-in. */
    method SetOpen(o: bool)
      modifies this
      ensures open == o
      ensures !o ==> mode == SignInMode && role == "" && company == ""
      ensures o ==> mode == old(mode) && role == old(role) && company == old(company)
      ensures sent == old(sent) && toasts == old(toasts)
    {
      open := o;
      if !o {
        role := "";
        company := "";
        mode := SignInMode;
      }
    }

    /** Escape closes an open dialog and does nothing otherwise. */
    method PressKey(key: string)
      modifies this
      ensures key == "Escape" && old(open) ==> !open && mode == SignInMode && role == "" && company == ""
      ensures !(key == "Escape" && old(open)) ==>
        open == old(open) && mode == old(mode) && role == old(role) && company == old(company)
      ensures sent == old(sent) && toasts == old(toasts)
    {
      if key == "Escape" && open {
        SetOpen(false);
      }
    }

    /** The tab buttons change the mode and keep what was typed. */
    method SwitchMode(m: Mode)
      modifies this
      ensures mode == m
      ensures open == old(open) && role == old(role) && company == old(company)
      ensures sent == old(sent) && toasts == old(toasts)
    {
      mode := m;
    }

    method Fill(r: string, c: string)
      modifies this
      ensures role == r && company == c
      ensures open == old(open) && mode == old(mode) && sent == old(sent) && toasts == old(toasts)
    {
      role := r;
      company := c;
    }

    /** `handleSubmit`: hands the body to the page, or shows a toast when a field is missing. */
    method Submit() returns (s: Submission)
      requires open
      modifies this
      ensures s == FormPayload(mode, role, company)
      ensures s.Submitted? ==> sent == old(sent) + [s.extraInfo] && toasts == old(toasts)
      ensures s.Incomplete? ==> sent == old(sent) && toasts == old(toasts) + [MissingFields]
      ensures open && mode == old(mode) && role == old(role) && company == old(company)
    {
      s := FormPayload(mode, role, company);
      if s.Submitted? {
        sent := sent + [s.extraInfo];
      } else {
        toasts := toasts + [MissingFields];
      }
    }

    /** The register button is disabled while signing in or while a field is empty. */
    predicate RegisterDisabled(authLoading: bool)
      reads this
      ensures authLoading ==> RegisterDisabled(authLoading)
      ensures !RegisterDisabled(authLoading) ==> role != "" && company != ""
    {
      authLoading || role == "" || company == ""
    }

    /** An enabled register button always submits: the toast can only come from submitting the form with Enter. */
    lemma EnabledRegisterSubmits(authLoading: bool)
      requires !RegisterDisabled(authLoading)
      ensures FormPayload(RegisterMode, role, company).Submitted?
    {
    }
  }

  /** The dialog the landing page mounts: errors are shown inline and cleared on every new attempt. */
  class LoginModal {
    var open: bool
    var mode: Mode
    var role: string
    var company: string
    var error: string
    var localServerError: string
    var sent: seq<map<string, Value>>

    constructor ()
      ensures !open && mode == SignInMode && role == "" && company == ""
      ensures error == "" && localServerError == "" && sent == []
    {
      open := false;
      mode := SignInMode;
      role := "";
      company := "";
      error := "";
      localServerError := "";
      sent := [];
    }

    /** The `open` prop changes; closing forgets the form and both errors and returns to sign-in. */
    method SetOpen(o: bool)
      modifies this
      ensures open == o
      ensures !o ==> mode == SignInMode && role == "" && company == "" && error == "" && localServerError == ""
      ensures o ==> (mode == old(mode) && role == old(role) && company == old(company)
        && error == old(error) && localServerError == old(localServerError))
      ensures sent == old(sent)
    {
      open := o;
      if !o {
        role := "";
        company := "";
        error := "";
        localServerError := "";
        mode := SignInMode;
      }
    }

    /** The `serverError` prop changes: a non-empty one is copied, an empty one leaves the copy. */
    method ServerErrorChanged(serverError: string)
      modifies this
      ensures localServerError == (if serverError != "" then serverError else old(localServerError))
      ensures open == old(open) && mode == old(mode) && role == old(role) && company == old(company)
      ensures error == old(error) && sent == old(sent)
    {
      if serverError != "" {
        localServerError := serverError;
      }
    }

    /** Escape closes an open dialog and does nothing otherwise. */
    method PressKey(key: string)
      modifies this
      ensures key == "Escape" && old(open) ==>
        !open && mode == SignInMode && role == "" && company == "" && error == "" && localServerError == ""
      ensures !(key == "Escape" && old(open)) ==>
        (open == old(open) && mode == old(mode) && role == old(role) && company == old(company)
        && error == old(error) && localServerError == old(localServerError))
      ensures sent == old(sent)
    {
      if key == "Escape" && open {
        SetOpen(false);
      }
    }

    /** Every tab button clears both errors. */
    method SwitchMode(m: Mode)
      modifies this
      ensures mode == m && error == "" && localServerError == ""
      ensures open == old(open) && role == old(role) && company == old(company) && sent == old(sent)
    {
      mode := m;
      localServerError := "";
      error := "";
    }

    method Fill(r: string, c: string)
      modifies this
      ensures role == r && company == c
      ensures open == old(open) && mode == old(mode) && error == old(error)
      ensures localServerError == old(localServerError) && sent == old(sent)
    {
      role := r;
      company := c;
    }

    /** `handleSubmit`: clears both errors, then hands the body to the page or reports the missing field. */
    method Submit() returns (s: Submission)
      requires open
      modifies this
      ensures s == FormPayload(mode, role, company)
      ensures localServerError == ""
      ensures s.Submitted? ==> sent == old(sent) + [s.extraInfo] && error == ""
      ensures s.Incomplete? ==> sent == old(sent) && error == MissingFields
      ensures open && mode == old(mode) && role == old(role) && company == old(company)
    {
      error := "";
      localServerError := "";
      s := FormPayload(mode, role, company);
      if s.Submitted? {
        sent := sent + [s.extraInfo];
      } else {
        error := MissingFields;
      }
    }

    /** The messages shown: the server's in sign-in mode; the form's, then the server's, in register mode. */
    function Banner(): (lines: seq<string>)
      reads this
      ensures forall k :: 0 <= k < |lines| ==> lines[k] != ""
      ensures mode == SignInMode ==> lines == (if localServerError != "" then [localServerError] else [])
      ensures mode == RegisterMode ==> (lines != [] <==> error != "" || localServerError != "")
      ensures mode == RegisterMode && error != "" ==> lines[0] == error
    {
      var server := if localServerError != "" then [localServerError] else [];
      match mode
      case SignInMode => server
      case RegisterMode => (if error != "" then [error] else []) + server
    }
  }
}
