/**
  The validator of the house-decoration service (houseDecorService.ts): a house needs a name, a
  description and between one and ten decoration items.
*/
module HouseDecorService {
  import opened Js
  import opened Validation

  /** An absent string is ""; an absent item list is `None`. */
  datatype HouseDecorData = HouseDecorData(houseName: string, houseDescription: string, itemId: Option<seq<string>>)

  datatype HouseDecorError = MissingName | MissingDescription | NoItems | TooManyItems
  {
    function Message(): string {
      match this
      case MissingName => "Tên nhà là bắt buộc"
      case MissingDescription => "Mô tả nhà là bắt buộc"
      case NoItems => "Ít nhất một vật phẩm trang trí là bắt buộc"
      case TooManyItems => "Không thể có quá 10 vật phẩm trang trí"
    }
  }

  /** The two item checks look at the same field and never fail together. */
  function HouseDecorErrorPosition(e: HouseDecorError): nat {
    match e
    case MissingName => 0
    case MissingDescription => 1
    case NoItems => 2
    case TooManyItems => 2
  }

  const MaxItems: nat := 10

  /** A missing string and one made only of whitespace are both missing. */
  predicate HouseDecorViolates(d: HouseDecorData, e: HouseDecorError) {
    match e
    case MissingName => AllWhitespace(d.houseName)
    case MissingDescription => AllWhitespace(d.houseDescription)
    case NoItems => d.itemId == None || d.itemId == Some([])
    case TooManyItems => d.itemId.Some? && |d.itemId.value| > MaxItems
  }

  /** `validateHouseDecorData`: exactly the failed checks, in field order. */
  method ValidateHouseDecorData(d: HouseDecorData) returns (isValid: bool, errors: seq<HouseDecorError>)
    ensures forall e :: e in errors <==> HouseDecorViolates(d, e)
    ensures forall i :: 0 <= i < |errors| - 1 ==> HouseDecorErrorPosition(errors[i]) < HouseDecorErrorPosition(errors[i + 1])
    ensures isValid <==> errors == []
  {
    errors := [];
    var missingName := true;
    if d.houseName != "" {
      missingName := IsBlank(d.houseName);
    }
    if missingName {
      errors := errors + [MissingName];
    }
    var missingDescription := true;
    if d.houseDescription != "" {
      missingDescription := IsBlank(d.houseDescription);
    }
    if missingDescription {
      errors := errors + [MissingDescription];
    }
    if d.itemId.None? || |d.itemId.value| == 0 {
      errors := errors + [NoItems];
    }
    if d.itemId.Some? && |d.itemId.value| > MaxItems {
      errors := errors + [TooManyItems];
    }
    isValid := |errors| == 0;
  }

  /** "No items" and "too many items" are exclusive, so there are at most three errors. */
  lemma HouseDecorErrorsAtMostThree(d: HouseDecorData, errors: seq<HouseDecorError>)
    requires forall e :: e in errors <==> HouseDecorViolates(d, e)
    requires forall i :: 0 <= i < |errors| - 1 ==> HouseDecorErrorPosition(errors[i]) < HouseDecorErrorPosition(errors[i + 1])
    ensures |errors| <= 3
  {
    assert InOrder(errors, HouseDecorErrorPosition);
    InOrderBound(errors, HouseDecorErrorPosition, 3);
  }

  /** The item count is accepted exactly from one to ten items. */
  lemma ItemCountWindow(d: HouseDecorData)
    requires d.itemId.Some?
    ensures !HouseDecorViolates(d, NoItems) && !HouseDecorViolates(d, TooManyItems)
            <==> 1 <= |d.itemId.value| <= 10
  {
  }
}
