/**
  The validator of the certificate service (certificateService.ts): a certificate needs a name, a
  description, the game challenge it was earned in and the match.
*/
module CertificateService {
  import opened Js
  import opened Validation

  /** An absent string is "". */
  datatype CertificateData = CertificateData(certName: string, certDescription: string, gameChallengeId: string, matchId: string)

  datatype CertificateError = MissingName | MissingDescription | MissingChallenge | MissingMatch
  {
    function Message(): string {
      match this
      case MissingName => "Tên chứng chỉ là bắt buộc"
      case MissingDescription => "Mô tả chứng chỉ là bắt buộc"
      case MissingChallenge => "ID thử thách trò chơi là bắt buộc"
      case MissingMatch => "ID trận đấu là bắt buộc"
    }
  }

  function CertificateErrorPosition(e: CertificateError): nat {
    match e
    case MissingName => 0
    case MissingDescription => 1
    case MissingChallenge => 2
    case MissingMatch => 3
  }

  /** Name and description must hold a non-whitespace character; the ids must be non-empty. */
  predicate CertificateViolates(d: CertificateData, e: CertificateError) {
    match e
    case MissingName => AllWhitespace(d.certName)
    case MissingDescription => AllWhitespace(d.certDescription)
    case MissingChallenge => d.gameChallengeId == ""
    case MissingMatch => d.matchId == ""
  }

  /** `validateCertificateData`: exactly the failed checks, in field order. */
  method ValidateCertificateData(d: CertificateData) returns (isValid: bool, errors: seq<CertificateError>)
    ensures forall e :: e in errors <==> CertificateViolates(d, e)
    ensures forall i :: 0 <= i < |errors| - 1 ==> CertificateErrorPosition(errors[i]) < CertificateErrorPosition(errors[i + 1])
    ensures isValid <==> errors == []
  {
    errors := [];
    var missingName := true;
    if d.certName != "" {
      missingName := IsBlank(d.certName);
    }
    if missingName {
      errors := errors + [MissingName];
    }
    var missingDescription := true;
    if d.certDescription != "" {
      missingDescription := IsBlank(d.certDescription);
    }
    if missingDescription {
      errors := errors + [MissingDescription];
    }
    if d.gameChallengeId == "" {
      errors := errors + [MissingChallenge];
    }
    if d.matchId == "" {
      errors := errors + [MissingMatch];
    }
    isValid := |errors| == 0;
  }

  /** An empty request gets all four errors, in field order. */
  lemma EmptyCertificateErrors(errors: seq<CertificateError>)
    requires forall e :: e in errors <==> CertificateViolates(CertificateData("", "", "", ""), e)
    requires forall i :: 0 <= i < |errors| - 1 ==> CertificateErrorPosition(errors[i]) < CertificateErrorPosition(errors[i + 1])
    ensures errors == [MissingName, MissingDescription, MissingChallenge, MissingMatch]
  {
    var all := [MissingName, MissingDescription, MissingChallenge, MissingMatch];
    forall e ensures e in errors <==> e in all {
      match e
      case MissingName =>
      case MissingDescription =>
      case MissingChallenge =>
      case MissingMatch =>
    }
    assert InOrder(errors, CertificateErrorPosition);
    assert InOrder(all, CertificateErrorPosition);
    InOrderDetermined(errors, all, CertificateErrorPosition);
  }
}
