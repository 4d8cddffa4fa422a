/**
  The pure helpers of the user service (userService.ts): the name shown for a user, the user's
  initials, and the validator for create and update requests.
*/
module UserService {
  import opened Js
  import opened Validation
  import opened EmailPatterns

  /** A user, reduced to the fields the helpers read. */
  datatype User = User(userName: string, email: string)

  // ---------------------------------------------------------------------------
  // getUserDisplayName, getUserInitials (lines 171-178)
  // ---------------------------------------------------------------------------

  /**
    `getUserDisplayName`: the user name when there is one, otherwise the email up to its first
    '@' (all of it when there is none).
  */
  function DisplayName(user: User): (name: string)
    ensures user.userName != "" ==> name == user.userName
    ensures user.userName == "" ==>
              name <= user.email && '@' !in name && (|name| < |user.email| ==> user.email[|name|] == '@')
  {
    if user.userName != "" then user.userName
    else
      SplitHead(user.email, '@');
      Split(user.email, '@')[0]
  }

  /** The words that have a first character, in order. */
  function NonEmptyWords(words: seq<string>): (ws: seq<string>)
    ensures |ws| <= |words|
    ensures forall k :: 0 <= k < |ws| ==> ws[k] != "" && ws[k] in words
  {
    if words == [] then []
    else if words[0] == "" then NonEmptyWords(words[1..])
    else [words[0]] + NonEmptyWords(words[1..])
  }

  /**
    `words.map(word => word[0]).join('')`: `word[0]` of an empty word is `undefined`, which
    `join` renders as nothing, so the result has one character per non-empty word.
  */
  function FirstLetters(words: seq<string>): (fs: string)
    ensures |fs| == |NonEmptyWords(words)|
    ensures forall k :: 0 <= k < |fs| ==> fs[k] == NonEmptyWords(words)[k][0]
  {
    if words == [] then ""
    else if words[0] == "" then FirstLetters(words[1..])
    else [words[0][0]] + FirstLetters(words[1..])
  }

  /**
    `getUserInitials`: the upper-cased first letters of the first two space-separated words of
    the display name.
  */
  function Initials(user: User): (r: string)
    ensures var ws := NonEmptyWords(Split(DisplayName(user), ' '));
            |r| == (if |ws| < 2 then |ws| else 2) &&
            forall k :: 0 <= k < |r| ==> r[k] == UpperChar(ws[k][0])
    ensures ' ' !in r
  {
    var words := Split(DisplayName(user), ' ');
    var letters := ToUpper(FirstLetters(words));
    var r := if |letters| <= 2 then letters else letters[..2];
    assert forall k :: 0 <= k < |r| ==> r[k] != ' ' by {
      forall k | 0 <= k < |r| ensures r[k] != ' ' {
        var w := NonEmptyWords(words)[k];
        assert w in words && w != "";
        assert ' ' !in w;
      }
    }
    r
  }

  // ---------------------------------------------------------------------------
  // validateUserData (lines 185-226)
  // ---------------------------------------------------------------------------

  /** A create or update request; absent strings are "". */
  datatype UserData = UserData(userName: string, email: string, password: string, gender: string, role: string)

  datatype UserError = NameTooShort | NameTooLong | InvalidEmail | PasswordTooShort | InvalidGender | InvalidRole
  {
    function Message(): string {
      match this
      case NameTooShort => "Tên người dùng phải có ít nhất 3 ký tự"
      case NameTooLong => "Tên người dùng không được quá 30 ký tự"
      case InvalidEmail => "Email không hợp lệ"
      case PasswordTooShort => "Mật khẩu phải có ít nhất 6 ký tự"
      case InvalidGender => "Giới tính không hợp lệ"
      case InvalidRole => "Vai trò không hợp lệ"
    }
  }

  function UserErrorPosition(e: UserError): nat {
    match e
    case NameTooShort => 0
    case NameTooLong => 0
    case InvalidEmail => 1
    case PasswordTooShort => 2
    case InvalidGender => 3
    case InvalidRole => 4
  }

  predicate IsGender(g: string) {
    g == "male" || g == "female" || g == "other"
  }

  predicate IsRole(r: string) {
    r == "student" || r == "admin" || r == "teacher"
  }

  /** Empty fields are not checked. */
  predicate UserViolates(d: UserData, e: UserError) {
    match e
    case NameTooShort => 0 < |d.userName| < 3
    case NameTooLong => |d.userName| > 30
    case InvalidEmail => d.email != "" && !StrictEmail(d.email)
    case PasswordTooShort => 0 < |d.password| < 6
    case InvalidGender => d.gender != "" && !IsGender(d.gender)
    case InvalidRole => d.role != "" && !IsRole(d.role)
  }

  /** The errors the check of field `field` (in checking order) pushes. */
  ghost function UserFieldErrors(d: UserData, field: nat): seq<UserError> {
    match field
    case 0 =>
      (if d.userName != "" && |d.userName| < 3 then [NameTooShort] else []) +
      (if d.userName != "" && |d.userName| > 30 then [NameTooLong] else [])
    case 1 => if d.email != "" && !StrictEmail(d.email) then [InvalidEmail] else []
    case 2 => if d.password != "" && |d.password| < 6 then [PasswordTooShort] else []
    case 3 => if d.gender != "" && !IsGender(d.gender) then [InvalidGender] else []
    case 4 => if d.role != "" && !IsRole(d.role) then [InvalidRole] else []
    case _ => []
  }

  /** The errors after checking the first k fields. */
  ghost function UserErrorsUpTo(d: UserData, k: nat): seq<UserError> {
    if k == 0 then [] else UserErrorsUpTo(d, k - 1) + UserFieldErrors(d, k - 1)
  }

  /** Each field's check pushes at most one error, exactly its own failed checks. */
  lemma UserFieldErrorsMeaning(d: UserData, field: nat)
    ensures forall e :: e in UserFieldErrors(d, field) <==> UserViolates(d, e) && UserErrorPosition(e) == field
    ensures |UserFieldErrors(d, field)| <= 1
  {
  }

  /** After k fields, the list holds exactly the failed checks of those fields, in order. */
  lemma {:induction false} UserErrorsUpToMeaning(d: UserData, k: nat)
    ensures CheckedUpTo(UserErrorsUpTo(d, k), e => UserViolates(d, e), UserErrorPosition, k)
  {
    if k > 0 {
      UserErrorsUpToMeaning(d, k - 1);
      var before, found := UserErrorsUpTo(d, k - 1), UserFieldErrors(d, k - 1);
      UserFieldErrorsMeaning(d, k - 1);
      assert (before + found)[..|before|] == before && (before + found)[|before|..] == found;
      CheckNext(before, before + found, e => UserViolates(d, e), UserErrorPosition, k - 1);
    }
  }

  /** All five fields checked: exactly the failed checks, in field order. */
  lemma UserErrorsMeaning(d: UserData)
    ensures forall e :: e in UserErrorsUpTo(d, 5) <==> UserViolates(d, e)
    ensures forall i :: 0 <= i < |UserErrorsUpTo(d, 5)| - 1 ==>
              UserErrorPosition(UserErrorsUpTo(d, 5)[i]) < UserErrorPosition(UserErrorsUpTo(d, 5)[i + 1])
  {
    UserErrorsUpToMeaning(d, 5);
    assert InOrder(UserErrorsUpTo(d, 5), UserErrorPosition);
  }

  /** `validateUserData`: exactly the failed checks, in field order. */
  method ValidateUserData(d: UserData) returns (isValid: bool, errors: seq<UserError>)
    ensures forall e :: e in errors <==> UserViolates(d, e)
    ensures forall i :: 0 <= i < |errors| - 1 ==> UserErrorPosition(errors[i]) < UserErrorPosition(errors[i + 1])
    ensures isValid <==> errors == []
  {
    errors := [];
    if d.userName != "" {
      if |d.userName| < 3 {
        errors := errors + [NameTooShort];
      }
      if |d.userName| > 30 {
        errors := errors + [NameTooLong];
      }
    }
    assert errors == UserErrorsUpTo(d, 1);
    if d.email != "" {
      var ok := TestStrictEmail(d.email);
      if !ok {
        errors := errors + [InvalidEmail];
      }
    }
    assert errors == UserErrorsUpTo(d, 2);
    if d.password != "" {
      if |d.password| < 6 {
        errors := errors + [PasswordTooShort];
      }
    }
    assert errors == UserErrorsUpTo(d, 3);
    if d.gender != "" {
      if !IsGender(d.gender) {
        errors := errors + [InvalidGender];
      }
    }
    assert errors == UserErrorsUpTo(d, 4);
    if d.role != "" {
      if !IsRole(d.role) {
        errors := errors + [InvalidRole];
      }
    }
    assert errors == UserErrorsUpTo(d, 5);
    UserErrorsMeaning(d);
    isValid := |errors| == 0;
  }

  /** One error per field at most, so at most five. */
  lemma UserErrorsAtMostFive(d: UserData, errors: seq<UserError>)
    requires forall e :: e in errors <==> UserViolates(d, e)
    requires forall i :: 0 <= i < |errors| - 1 ==> UserErrorPosition(errors[i]) < UserErrorPosition(errors[i + 1])
    ensures |errors| <= 5
  {
    assert InOrder(errors, UserErrorPosition);
    InOrderBound(errors, UserErrorPosition, 5);
  }
}
