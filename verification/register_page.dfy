/**
  The sign-up form (pages/auth/RegisterPage.tsx): its per-field checks, which keep at most one
  message per field, and the request it sends once every check passes.
*/
module RegisterPage {
  import opened Js
  import opened EmailPatterns
  import AuthService

  /** The form's fields; gender and role come from drop-downs and are never checked. */
  datatype RegisterFormData = RegisterFormData(
    userName: string, email: string, password: string, confirmPassword: string,
    gender: string, address: string, role: string)

  /** The sign-up request: the form without `confirmPassword`. */
  datatype RegisterRequest = RegisterRequest(
    userName: string, email: string, password: string, gender: string, address: string, role: string)

  /** The keys of the error record. */
  datatype Field = UserName | Email | Password | ConfirmPassword | Address

  datatype RegisterError =
    | UserNameRequired | UserNameTooShort
    | EmailRequired | InvalidEmail
    | PasswordRequired | PasswordTooShort
    | ConfirmPasswordRequired | PasswordMismatch
    | AddressRequired
  {
    /** The field the message is shown under. */
    function Field(): Field {
      match this
      case UserNameRequired | UserNameTooShort => UserName
      case EmailRequired | InvalidEmail => Email
      case PasswordRequired | PasswordTooShort => Password
      case ConfirmPasswordRequired | PasswordMismatch => ConfirmPassword
      case AddressRequired => Address
    }

    function Message(): string {
      match this
      case UserNameRequired => "Tên người dùng là bắt buộc"
      case UserNameTooShort => "Tên người dùng phải có ít nhất 3 ký tự"
      case EmailRequired => "Email là bắt buộc"
      case InvalidEmail => "Email không hợp lệ"
      case PasswordRequired => "Mật khẩu là bắt buộc"
      case PasswordTooShort => "Mật khẩu phải có ít nhất 6 ký tự"
      case ConfirmPasswordRequired => "Xác nhận mật khẩu là bắt buộc"
      case PasswordMismatch => "Mật khẩu xác nhận không khớp"
      case AddressRequired => "Địa chỉ là bắt buộc"
    }
  }

  /**
    What each error means about the form. The second check of a field only runs when the field
    is filled in, so the two errors of a field never hold together.
  */
  predicate RegisterViolates(data: RegisterFormData, e: RegisterError) {
    match e
    case UserNameRequired => data.userName == ""
    case UserNameTooShort => 0 < |data.userName| < 3
    case EmailRequired => data.email == ""
    case InvalidEmail => data.email != "" && !LooseEmail(data.email)
    case PasswordRequired => data.password == ""
    case PasswordTooShort => 0 < |data.password| < 6
    case ConfirmPasswordRequired => data.confirmPassword == ""
    case PasswordMismatch => data.confirmPassword != "" && data.password != data.confirmPassword
    case AddressRequired => data.address == ""
  }

  /** The order in which the fields are checked. */
  function FieldIndex(f: Field): nat {
    match f
    case UserName => 0
    case Email => 1
    case Password => 2
    case ConfirmPassword => 3
    case Address => 4
  }

  /** m holds, under each of the first k fields, the one check of that field that failed. */
  ghost predicate CheckedFields(data: RegisterFormData, m: map<Field, RegisterError>, k: nat) {
    (forall f :: f in m ==> FieldIndex(f) < k && m[f].Field() == f && RegisterViolates(data, m[f])) &&
    (forall e :: RegisterViolates(data, e) && FieldIndex(e.Field()) < k ==> e.Field() in m && m[e.Field()] == e)
  }

  /** The fields in checking order. */
  const FieldOrder: seq<Field> := [UserName, Email, Password, ConfirmPassword, Address]

  /** The check of one field: the first of its two conditions that holds, if any. */
  ghost function FieldError(data: RegisterFormData, f: Field): Option<RegisterError> {
    match f
    case UserName =>
      if data.userName == "" then Some(UserNameRequired)
      else if |data.userName| < 3 then Some(UserNameTooShort) else None
    case Email =>
      if data.email == "" then Some(EmailRequired)
      else if !LooseEmail(data.email) then Some(InvalidEmail) else None
    case Password =>
      if data.password == "" then Some(PasswordRequired)
      else if |data.password| < 6 then Some(PasswordTooShort) else None
    case ConfirmPassword =>
      if data.confirmPassword == "" then Some(ConfirmPasswordRequired)
      else if data.password != data.confirmPassword then Some(PasswordMismatch) else None
    case Address =>
      if data.address == "" then Some(AddressRequired) else None
  }

  /** The error record after the first k fields are checked. */
  ghost function ErrorsUpTo(data: RegisterFormData, k: nat): map<Field, RegisterError>
    requires k <= |FieldOrder|
  {
    if k == 0 then map[]
    else
      var f := FieldOrder[k - 1];
      match FieldError(data, f)
      case Some(e) => ErrorsUpTo(data, k - 1)[f := e]
      case None => ErrorsUpTo(data, k - 1)
  }

  /** A field's check reports exactly the one condition of that field that holds. */
  lemma FieldErrorMeaning(data: RegisterFormData, f: Field)
    ensures forall e :: FieldError(data, f) == Some(e) <==> RegisterViolates(data, e) && e.Field() == f
  {
  }

  /** After k fields, the record holds under each of them the condition that failed. */
  lemma {:induction false} ErrorsUpToMeaning(data: RegisterFormData, k: nat)
    requires k <= |FieldOrder|
    ensures CheckedFields(data, ErrorsUpTo(data, k), k)
  {
    if k > 0 {
      ErrorsUpToMeaning(data, k - 1);
      var f := FieldOrder[k - 1];
      assert FieldIndex(f) == k - 1;
      FieldErrorMeaning(data, f);
    }
  }

  /**
    The error record m reports the form exactly: under each field, the one check of that field
    that failed, and every failed check under its field.
  */
  ghost predicate ReportsFailedChecks(data: RegisterFormData, m: map<Field, RegisterError>) {
    (forall f :: f in m ==> m[f].Field() == f && RegisterViolates(data, m[f])) &&
    (forall e :: RegisterViolates(data, e) ==> e.Field() in m && m[e.Field()] == e)
  }

  /** A record of all five fields holds exactly the failed checks, each under its own field. */
  lemma CheckedAllFields(data: RegisterFormData, m: map<Field, RegisterError>)
    requires CheckedFields(data, m, 5)
    ensures ReportsFailedChecks(data, m)
  {
    forall e | RegisterViolates(data, e) ensures e.Field() in m && m[e.Field()] == e {
      assert FieldIndex(e.Field()) < 5;
    }
  }

  /** The empty form, with the drop-downs on their first options. */
  const InitialRegisterData := RegisterFormData("", "", "", "", "male", "", "student")

  /**
    The record `validateForm` fills before handing it to `setErrors`: for each field in turn, the
    first of its checks that fails.
  */
  method CheckFields(d: RegisterFormData) returns (newErrors: map<Field, RegisterError>)
    ensures ReportsFailedChecks(d, newErrors)
  {
    newErrors := map[];

    if d.userName == "" {
      newErrors := newErrors[UserName := UserNameRequired];
    } else if |d.userName| < 3 {
      newErrors := newErrors[UserName := UserNameTooShort];
    }
    assert newErrors == ErrorsUpTo(d, 1);

    if d.email == "" {
      newErrors := newErrors[Email := EmailRequired];
    } else {
      var ok := TestLooseEmail(d.email);
      if !ok {
        newErrors := newErrors[Email := InvalidEmail];
      }
    }
    assert newErrors == ErrorsUpTo(d, 2);

    if d.password == "" {
      newErrors := newErrors[Password := PasswordRequired];
    } else if |d.password| < 6 {
      newErrors := newErrors[Password := PasswordTooShort];
    }
    assert newErrors == ErrorsUpTo(d, 3);

    if d.confirmPassword == "" {
      newErrors := newErrors[ConfirmPassword := ConfirmPasswordRequired];
    } else if d.password != d.confirmPassword {
      newErrors := newErrors[ConfirmPassword := PasswordMismatch];
    }
    assert newErrors == ErrorsUpTo(d, 4);

    if d.address == "" {
      newErrors := newErrors[Address := AddressRequired];
    }
    assert newErrors == ErrorsUpTo(d, 5);
    ErrorsUpToMeaning(d, 5);
    CheckedAllFields(d, newErrors);
  }

  /** The form's state: what has been typed and the messages on display. */
  class RegisterForm {
    var data: RegisterFormData
    var errors: map<Field, RegisterError>

    constructor()
      ensures data == InitialRegisterData && errors == map[]
    {
      data := InitialRegisterData;
      errors := map[];
    }

    /**
      `validateForm`: the error record holds, under each field, the one check of that field that
      failed, and nothing else; the form is valid exactly when the record is empty.
    */
    method ValidateForm() returns (valid: bool)
      modifies this`errors
      ensures ReportsFailedChecks(data, errors)
      ensures valid <==> errors == map[]
    {
      var newErrors := CheckFields(data);
      errors := newErrors;
      valid := |newErrors| == 0;
    }

    /**
      `handleSubmit`: the form is checked first and the request is made only when nothing failed;
      it carries every field but `confirmPassword`.
    */
    method HandleSubmit() returns (sent: Option<RegisterRequest>)
      modifies this`errors
      ensures sent.Some? <==> forall e :: !RegisterViolates(data, e)
      ensures sent.Some? ==>
                sent.value == RegisterRequest(data.userName, data.email, data.password, data.gender, data.address, data.role)
      ensures ReportsFailedChecks(data, errors)
      ensures sent.Some? <==> errors == map[]
    {
      var valid := ValidateForm();
      if !valid {
        assert errors.Keys != {};
        var f :| f in errors;
        assert RegisterViolates(data, errors[f]);
        return None;
      }
      sent := Some(RegisterRequest(data.userName, data.email, data.password, data.gender, data.address, data.role));
    }
  }

  /**
    A form passes exactly when the name has at least three characters, the email matches the
    loose pattern, the password has at least six characters and is repeated exactly, and an
    address is given.
  */
  lemma RegisterAcceptedIff(data: RegisterFormData)
    ensures (forall e :: !RegisterViolates(data, e)) <==>
              |data.userName| >= 3 && LooseEmail(data.email) && |data.password| >= 6 &&
              data.confirmPassword == data.password && data.address != ""
  {
    if |data.userName| >= 3 && LooseEmail(data.email) && |data.password| >= 6 &&
       data.confirmPassword == data.password && data.address != "" {
      assert data.email != "";
    } else {
      if data.userName == "" {
        assert RegisterViolates(data, UserNameRequired);
      } else if |data.userName| < 3 {
        assert RegisterViolates(data, UserNameTooShort);
      } else if data.email == "" {
        assert RegisterViolates(data, EmailRequired);
      } else if !LooseEmail(data.email) {
        assert RegisterViolates(data, InvalidEmail);
      } else if data.password == "" {
        assert RegisterViolates(data, PasswordRequired);
      } else if |data.password| < 6 {
        assert RegisterViolates(data, PasswordTooShort);
      } else if data.confirmPassword == "" {
        assert RegisterViolates(data, ConfirmPasswordRequired);
      } else if data.confirmPassword != data.password {
        assert RegisterViolates(data, PasswordMismatch);
      } else {
        assert RegisterViolates(data, AddressRequired);
      }
    }
  }

  /** Submitting the untouched form asks for every field that has to be typed in. */
  lemma InitialFormErrors(errors: map<Field, RegisterError>)
    requires ReportsFailedChecks(InitialRegisterData, errors)
    ensures errors == map[UserName := UserNameRequired, Email := EmailRequired, Password := PasswordRequired,
                          ConfirmPassword := ConfirmPasswordRequired, Address := AddressRequired]
  {
    assert RegisterViolates(InitialRegisterData, UserNameRequired);
    assert RegisterViolates(InitialRegisterData, EmailRequired);
    assert RegisterViolates(InitialRegisterData, PasswordRequired);
    assert RegisterViolates(InitialRegisterData, ConfirmPasswordRequired);
    assert RegisterViolates(InitialRegisterData, AddressRequired);
  }

  /**
    The form's password rule is weaker than the authentication service's: a password of six or
    more lower-case letters passes the form's checks but has no upper-case letter or digit.
  */
  lemma FormPasswordRuleWeaker(d: RegisterFormData)
    requires |d.password| >= 6 && forall i :: 0 <= i < |d.password| ==> IsAsciiLower(d.password[i])
    ensures !RegisterViolates(d, PasswordRequired) && !RegisterViolates(d, PasswordTooShort)
    ensures AuthService.PasswordViolates(d.password, AuthService.NoUppercase)
    ensures AuthService.PasswordViolates(d.password, AuthService.NoDigit)
  {
    AnyCharAt(d.password, IsAsciiUpper);
    AnyCharAt(d.password, IsDigit);
  }
}
