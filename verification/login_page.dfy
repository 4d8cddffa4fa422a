/**
  The sign-in form (pages/auth/LoginPage.tsx): its two per-field checks and the request it makes
  once both pass.
*/
module LoginPage {
  import opened Js
  import opened EmailPatterns
  import RegisterPage

  /** The form's fields, sent as they are. */
  datatype LoginFormData = LoginFormData(email: string, password: string)

  /** The keys of the error record. */
  datatype Field = Email | Password

  datatype LoginError = EmailRequired | InvalidEmail | PasswordRequired | PasswordTooShort
  {
    /** The field the message is shown under. */
    function Field(): Field {
      match this
      case EmailRequired | InvalidEmail => Email
      case PasswordRequired | PasswordTooShort => Password
    }

    function Message(): string {
      match this
      case EmailRequired => "Email là bắt buộc"
      case InvalidEmail => "Email không hợp lệ"
      case PasswordRequired => "Mật khẩu là bắt buộc"
      case PasswordTooShort => "Mật khẩu phải có ít nhất 6 ký tự"
    }
  }

  /** What each error means; a field's second check only runs when the field is filled in. */
  predicate LoginViolates(data: LoginFormData, e: LoginError) {
    match e
    case EmailRequired => data.email == ""
    case InvalidEmail => data.email != "" && !LooseEmail(data.email)
    case PasswordRequired => data.password == ""
    case PasswordTooShort => 0 < |data.password| < 6
  }

  /** The error record m holds, under each field, the failed check of that field, and no other. */
  ghost predicate ReportsFailedChecks(data: LoginFormData, m: map<Field, LoginError>) {
    (forall f :: f in m ==> m[f].Field() == f && LoginViolates(data, m[f])) &&
    (forall e :: LoginViolates(data, e) ==> e.Field() in m && m[e.Field()] == e)
  }

  /**
    The record `validateForm` fills before handing it to `setErrors`: for each field in turn, the
    first of its checks that fails.
  */
  method CheckFields(d: LoginFormData) returns (newErrors: map<Field, LoginError>)
    ensures ReportsFailedChecks(d, newErrors)
  {
    newErrors := map[];

    if d.email == "" {
      newErrors := newErrors[Email := EmailRequired];
    } else {
      var ok := TestLooseEmail(d.email);
      if !ok {
        newErrors := newErrors[Email := InvalidEmail];
      }
    }

    if d.password == "" {
      newErrors := newErrors[Password := PasswordRequired];
    } else if |d.password| < 6 {
      newErrors := newErrors[Password := PasswordTooShort];
    }
  }

  /** The form's state: what has been typed and the messages on display. */
  class LoginForm {
    var data: LoginFormData
    var errors: map<Field, LoginError>

    constructor()
      ensures data == LoginFormData("", "") && errors == map[]
    {
      data := LoginFormData("", "");
      errors := map[];
    }

    /** `validateForm`: the record of failed checks is put on display; valid when it is empty. */
    method ValidateForm() returns (valid: bool)
      modifies this`errors
      ensures ReportsFailedChecks(data, errors)
      ensures valid <==> errors == map[]
    {
      var newErrors := CheckFields(data);
      errors := newErrors;
      valid := |newErrors| == 0;
    }

    /** `handleSubmit`: the form is checked first and sent as it is only when nothing failed. */
    method HandleSubmit() returns (sent: Option<LoginFormData>)
      modifies this`errors
      ensures sent.Some? <==> forall e :: !LoginViolates(data, e)
      ensures sent.Some? ==> sent.value == data
      ensures ReportsFailedChecks(data, errors)
      ensures sent.Some? <==> errors == map[]
    {
      var valid := ValidateForm();
      if !valid {
        var f :| f in errors;
        assert LoginViolates(data, errors[f]);
        return None;
      }
      sent := Some(data);
    }
  }

  /** A form passes exactly when the email matches the loose pattern and the password has six characters. */
  lemma LoginAcceptedIff(data: LoginFormData)
    ensures (forall e :: !LoginViolates(data, e)) <==> LooseEmail(data.email) && |data.password| >= 6
  {
    if !(LooseEmail(data.email) && |data.password| >= 6) {
      if data.email == "" {
        assert LoginViolates(data, EmailRequired);
      } else if !LooseEmail(data.email) {
        assert LoginViolates(data, InvalidEmail);
      } else if data.password == "" {
        assert LoginViolates(data, PasswordRequired);
      } else {
        assert LoginViolates(data, PasswordTooShort);
      }
    }
  }

  /** The email and password of any form the sign-up page accepts pass the sign-in checks. */
  lemma RegisteredCanSignIn(r: RegisterPage.RegisterFormData)
    requires forall e :: !RegisterPage.RegisterViolates(r, e)
    ensures forall e :: !LoginViolates(LoginFormData(r.email, r.password), e)
  {
    RegisterPage.RegisterAcceptedIff(r);
    LoginAcceptedIff(LoginFormData(r.email, r.password));
  }
}
