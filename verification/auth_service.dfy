/**
  The pure helpers of the authentication service (authService.ts): the OAuth callback's result
  and the password and user-name rules. The email test is `EmailPatterns.MatchesStrictEmail`.
*/
module AuthService {
  import opened Js
  import opened Validation

  // ---------------------------------------------------------------------------
  // handleOAuthCallback (lines 35-41)
  // ---------------------------------------------------------------------------

  datatype OAuthResult = OAuthResult(success: bool, token: string)

  /** `handleOAuthCallback`: a non-empty token is passed through, an empty one is a failure. */
  function HandleOAuthCallback(token: string): (r: OAuthResult)
    ensures r.success <==> token != ""
    ensures r.success <==> r.token != ""
    ensures r.token == "" || r.token == token
  {
    if token != "" then OAuthResult(true, token) else OAuthResult(false, "")
  }

  // ---------------------------------------------------------------------------
  // validatePassword (lines 123-146)
  // ---------------------------------------------------------------------------

  datatype PasswordError = PasswordTooShort | NoLowercase | NoUppercase | NoDigit
  {
    function Message(): string {
      match this
      case PasswordTooShort => "Mật khẩu phải có ít nhất 6 ký tự"
      case NoLowercase => "Mật khẩu phải có ít nhất 1 chữ thường"
      case NoUppercase => "Mật khẩu phải có ít nhất 1 chữ hoa"
      case NoDigit => "Mật khẩu phải có ít nhất 1 số"
    }
  }

  function PasswordErrorPosition(e: PasswordError): nat {
    match e
    case PasswordTooShort => 0
    case NoLowercase => 1
    case NoUppercase => 2
    case NoDigit => 3
  }

  const MinPasswordLength: nat := 6

  /**
    The look-aheads `(?=.*[a-z])`, `(?=.*[A-Z])` and `(?=.*\d)` each succeed exactly when the
    class occurs somewhere (the look-ahead can start right at that character).
  */
  predicate PasswordViolates(password: string, e: PasswordError) {
    match e
    case PasswordTooShort => |password| < MinPasswordLength
    case NoLowercase => !AnyChar(password, IsAsciiLower)
    case NoUppercase => !AnyChar(password, IsAsciiUpper)
    case NoDigit => !AnyChar(password, IsDigit)
  }

  /** `validatePassword`: exactly the failed rules, in the order they are checked. */
  method ValidatePassword(password: string) returns (isValid: bool, errors: seq<PasswordError>)
    ensures forall e :: e in errors <==> PasswordViolates(password, e)
    ensures forall i :: 0 <= i < |errors| - 1 ==> PasswordErrorPosition(errors[i]) < PasswordErrorPosition(errors[i + 1])
    ensures isValid <==> errors == []
  {
    errors := [];
    if |password| < MinPasswordLength {
      errors := errors + [PasswordTooShort];
    }
    if !AnyChar(password, IsAsciiLower) {
      errors := errors + [NoLowercase];
    }
    if !AnyChar(password, IsAsciiUpper) {
      errors := errors + [NoUppercase];
    }
    if !AnyChar(password, IsDigit) {
      errors := errors + [NoDigit];
    }
    isValid := |errors| == 0;
  }

  /**
    A password is accepted exactly when it has at least six characters, among them a lower-case
    letter, an upper-case letter and a digit.
  */
  lemma PasswordAcceptedIff(password: string, errors: seq<PasswordError>)
    requires forall e :: e in errors <==> PasswordViolates(password, e)
    ensures errors == [] <==>
              |password| >= 6 &&
              (exists i :: 0 <= i < |password| && IsAsciiLower(password[i])) &&
              (exists i :: 0 <= i < |password| && IsAsciiUpper(password[i])) &&
              (exists i :: 0 <= i < |password| && IsDigit(password[i]))
  {
    AnyCharAt(password, IsAsciiLower);
    AnyCharAt(password, IsAsciiUpper);
    AnyCharAt(password, IsDigit);
    if errors != [] {
      assert errors[0] in errors;
    } else {
      assert !PasswordViolates(password, PasswordTooShort) && !PasswordViolates(password, NoLowercase);
      assert !PasswordViolates(password, NoUppercase) && !PasswordViolates(password, NoDigit);
    }
  }

  // ---------------------------------------------------------------------------
  // validateUserName (lines 148-167)
  // ---------------------------------------------------------------------------

  datatype UserNameError = UserNameTooShort | UserNameTooLong | UserNameBadCharacters
  {
    function Message(): string {
      match this
      case UserNameTooShort => "Tên người dùng phải có ít nhất 3 ký tự"
      case UserNameTooLong => "Tên người dùng không được quá 30 ký tự"
      case UserNameBadCharacters => "Tên người dùng chỉ được chứa chữ cái, số và dấu gạch dưới"
    }
  }

  function UserNameErrorPosition(e: UserNameError): nat {
    match e
    case UserNameTooShort => 0
    case UserNameTooLong => 1
    case UserNameBadCharacters => 2
  }

  /** The class `[a-zA-Z0-9_]`. */
  predicate IsWordChar(c: char) {
    IsAsciiLower(c) || IsAsciiUpper(c) || IsDigit(c) || c == '_'
  }

  /** `^[a-zA-Z0-9_]+$` fails on the empty name as well as on any other character. */
  predicate UserNameViolates(userName: string, e: UserNameError) {
    match e
    case UserNameTooShort => |userName| < 3
    case UserNameTooLong => |userName| > 30
    case UserNameBadCharacters => userName == "" || !AllChars(userName, IsWordChar)
  }

  /** `validateUserName`: exactly the failed rules, in the order they are checked. */
  method ValidateUserName(userName: string) returns (isValid: bool, errors: seq<UserNameError>)
    ensures forall e :: e in errors <==> UserNameViolates(userName, e)
    ensures forall i :: 0 <= i < |errors| - 1 ==> UserNameErrorPosition(errors[i]) < UserNameErrorPosition(errors[i + 1])
    ensures isValid <==> errors == []
  {
    errors := [];
    if |userName| < 3 {
      errors := errors + [UserNameTooShort];
    }
    if |userName| > 30 {
      errors := errors + [UserNameTooLong];
    }
    if userName == "" || !AllChars(userName, IsWordChar) {
      errors := errors + [UserNameBadCharacters];
    }
    isValid := |errors| == 0;
  }

  /** The two length rules never fail together, so there are at most two errors. */
  lemma UserNameErrorsAtMostTwo(userName: string, errors: seq<UserNameError>)
    requires forall e :: e in errors <==> UserNameViolates(userName, e)
    requires forall i :: 0 <= i < |errors| - 1 ==> UserNameErrorPosition(errors[i]) < UserNameErrorPosition(errors[i + 1])
    ensures |errors| <= 2
  {
    assert InOrder(errors, UserNameErrorPosition);
    if |userName| < 3 {
      InOrderWithin(errors, UserNameErrorPosition, [UserNameTooShort, UserNameBadCharacters]);
    } else {
      InOrderWithin(errors, UserNameErrorPosition, [UserNameTooLong, UserNameBadCharacters]);
    }
  }

  /** The empty name breaks the length rule and the character rule, in that order. */
  lemma EmptyUserNameErrors(errors: seq<UserNameError>)
    requires forall e :: e in errors <==> UserNameViolates("", e)
    requires forall i :: 0 <= i < |errors| - 1 ==> UserNameErrorPosition(errors[i]) < UserNameErrorPosition(errors[i + 1])
    ensures errors == [UserNameTooShort, UserNameBadCharacters]
  {
    var expected := [UserNameTooShort, UserNameBadCharacters];
    forall e ensures e in errors <==> e in expected {
      match e
      case UserNameTooShort =>
      case UserNameTooLong =>
      case UserNameBadCharacters =>
    }
    assert InOrder(errors, UserNameErrorPosition);
    assert InOrder(expected, UserNameErrorPosition);
    InOrderDetermined(errors, expected, UserNameErrorPosition);
  }

  /** A name is accepted exactly when it has 3 to 30 characters, all letters, digits or '_'. */
  lemma UserNameAcceptedIff(userName: string, errors: seq<UserNameError>)
    requires forall e :: e in errors <==> UserNameViolates(userName, e)
    ensures errors == [] <==>
              3 <= |userName| <= 30 && forall i :: 0 <= i < |userName| ==> IsWordChar(userName[i])
  {
    AllCharsAt(userName, IsWordChar);
    if errors != [] {
      assert errors[0] in errors;
    } else {
      assert !UserNameViolates(userName, UserNameTooShort) && !UserNameViolates(userName, UserNameTooLong);
      assert !UserNameViolates(userName, UserNameBadCharacters);
    }
  }
}
