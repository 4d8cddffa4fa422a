/**
  Helpers of the item service (itemService.ts): the item-type label and colour tables, the total
  value of a list of items, and the validators for items, house decorations and trades.

  An optional string field that is absent is modelled as "": every check on such a field goes
  through JavaScript truthiness, for which `undefined` and "" behave alike.
*/
module ItemService {
  import opened Js
  import opened Validation

  /** The five item kinds the validators accept. */
  predicate IsItemType(t: string) {
    t == "weapon" || t == "armor" || t == "consumable" || t == "decoration" || t == "special"
  }

  /** `getItemTypeColor`: one colour per kind, grey for anything else. */
  function ItemTypeColor(itemType: string): (c: string)
    ensures !IsItemType(itemType) <==> c == "#9E9E9E"
  {
    match itemType
    case "weapon" => "#F44336"
    case "armor" => "#2196F3"
    case "consumable" => "#4CAF50"
    case "decoration" => "#FF9800"
    case "special" => "#9C27B0"
    case _ => "#9E9E9E"
  }

  /** `getItemTypeLabel`: one Vietnamese label per kind, "unknown" for anything else. */
  function ItemTypeLabel(itemType: string): (l: string)
    ensures !IsItemType(itemType) <==> l == "Không xác định"
  {
    match itemType
    case "weapon" => "Vũ khí"
    case "armor" => "Giáp"
    case "consumable" => "Tiêu hao"
    case "decoration" => "Trang trí"
    case "special" => "Đặc biệt"
    case _ => "Không xác định"
  }

  /** Different kinds get different labels and different colours. */
  lemma ItemTypeTablesInjective(a: string, b: string)
    requires IsItemType(a) && IsItemType(b) && a != b
    ensures ItemTypeLabel(a) != ItemTypeLabel(b)
    ensures ItemTypeColor(a) != ItemTypeColor(b)
  {
  }

  datatype Item = Item(itemName: string, itemType: string, itemPrice: real, itemImage: string)

  /** `items.reduce((total, item) => total + item.itemPrice, 0)`. */
  function TotalValue(items: seq<Item>): (total: real)
    ensures (forall i :: 0 <= i < |items| ==> items[i].itemPrice >= 0.0) ==> total >= 0.0
  {
    if items == [] then 0.0 else TotalValue(items[..|items| - 1]) + items[|items| - 1].itemPrice
  }

  /** The total of two lists put together is the sum of their totals (0 for the empty list). */
  lemma {:induction false} TotalValueAppend(a: seq<Item>, b: seq<Item>)
    ensures TotalValue(a + b) == TotalValue(a) + TotalValue(b)
    ensures TotalValue([]) == 0.0
    decreases |b|
  {
    if b == [] {
      assert a + b == a;
    } else {
      assert (a + b)[..|a + b| - 1] == a + b[..|b| - 1];
      TotalValueAppend(a, b[..|b| - 1]);
    }
  }

  /** The total does not depend on the order of the items. */
  lemma {:induction false} TotalValueSwap(a: seq<Item>, x: Item, y: Item, b: seq<Item>)
    ensures TotalValue(a + [x, y] + b) == TotalValue(a + [y, x] + b)
  {
    TotalValueAppend(a + [x, y], b);
    TotalValueAppend(a + [y, x], b);
    TotalValueAppend(a, [x, y]);
    TotalValueAppend(a, [y, x]);
    assert [x, y][..1] == [x] && [y, x][..1] == [y];
  }

  // ---------------------------------------------------------------------------
  // validateItemData (lines 257-291)
  // ---------------------------------------------------------------------------

  /** The fields of a create or update request; an absent price is `None`. */
  datatype ItemData = ItemData(itemName: string, itemType: string, itemPrice: Option<real>, itemImage: string)

  datatype ItemError = NameTooShort | NameTooLong | InvalidType | NegativePrice | InvalidImage
  {
    function Message(): string {
      match this
      case NameTooShort => "Tên vật phẩm phải có ít nhất 3 ký tự"
      case NameTooLong => "Tên vật phẩm không được quá 100 ký tự"
      case InvalidType => "Loại vật phẩm không hợp lệ"
      case NegativePrice => "Giá vật phẩm không được âm"
      case InvalidImage => "URL hình ảnh không hợp lệ"
    }
  }

  /** The field an error is about, in the order the fields are checked. */
  function ItemErrorPosition(e: ItemError): nat {
    match e
    case NameTooShort => 0
    case NameTooLong => 0
    case InvalidType => 1
    case NegativePrice => 2
    case InvalidImage => 3
  }

  /** `startsWith('http') || startsWith('/')`: an absolute URL or a server path. */
  predicate HasImagePrefix(image: string) {
    "http" <= image || "/" <= image
  }

  /** What each error means about the data. */
  predicate ItemViolates(d: ItemData, e: ItemError) {
    match e
    case NameTooShort => 0 < |d.itemName| < 3
    case NameTooLong => |d.itemName| > 100
    case InvalidType => d.itemType != "" && !IsItemType(d.itemType)
    case NegativePrice => d.itemPrice.Some? && d.itemPrice.value < 0.0
    case InvalidImage => d.itemImage != "" && !HasImagePrefix(d.itemImage)
  }

  /**
    `validateItemData`: exactly the violated checks, in field order (so a bad name gets one
    error, never two), and valid exactly when there are none.
  */
  method ValidateItemData(d: ItemData) returns (isValid: bool, errors: seq<ItemError>)
    ensures forall e :: e in errors <==> ItemViolates(d, e)
    ensures forall i :: 0 <= i < |errors| - 1 ==> ItemErrorPosition(errors[i]) < ItemErrorPosition(errors[i + 1])
    ensures isValid <==> errors == []
  {
    errors := [];
    if d.itemName != "" {
      if |d.itemName| < 3 {
        errors := errors + [NameTooShort];
      }
      if |d.itemName| > 100 {
        errors := errors + [NameTooLong];
      }
    }
    if d.itemType != "" {
      if !IsItemType(d.itemType) {
        errors := errors + [InvalidType];
      }
    }
    if d.itemPrice.Some? {
      if d.itemPrice.value < 0.0 {
        errors := errors + [NegativePrice];
      }
    }
    if d.itemImage != "" {
      if !HasImagePrefix(d.itemImage) {
        errors := errors + [InvalidImage];
      }
    }
    isValid := |errors| == 0;
  }

  /** The two name errors never come together, so an item gets at most four errors. */
  lemma ItemErrorsAtMostFour(d: ItemData, errors: seq<ItemError>)
    requires forall e :: e in errors <==> ItemViolates(d, e)
    requires forall i :: 0 <= i < |errors| - 1 ==> ItemErrorPosition(errors[i]) < ItemErrorPosition(errors[i + 1])
    ensures |errors| <= 4
  {
    assert InOrder(errors, ItemErrorPosition);
    InOrderBound(errors, ItemErrorPosition, 4);
  }

  // ---------------------------------------------------------------------------
  // validateHouseDecorationData (lines 293-324)
  // ---------------------------------------------------------------------------

  /** An absent item list is `None`; a present one is an array (the type rules out anything else). */
  datatype HouseDecorationData = HouseDecorationData(houseName: string, houseDescription: string, itemId: Option<seq<string>>)

  datatype HouseError = HouseNameTooShort | HouseNameTooLong | DescriptionTooLong | NoItems
  {
    function Message(): string {
      match this
      case HouseNameTooShort => "Tên nhà phải có ít nhất 3 ký tự"
      case HouseNameTooLong => "Tên nhà không được quá 100 ký tự"
      case DescriptionTooLong => "Mô tả nhà không được quá 500 ký tự"
      case NoItems => "Phải có ít nhất 1 vật phẩm"
    }
  }

  function HouseErrorPosition(e: HouseError): nat {
    match e
    case HouseNameTooShort => 0
    case HouseNameTooLong => 0
    case DescriptionTooLong => 1
    case NoItems => 2
  }

  predicate HouseViolates(d: HouseDecorationData, e: HouseError) {
    match e
    case HouseNameTooShort => 0 < |d.houseName| < 3
    case HouseNameTooLong => |d.houseName| > 100
    case DescriptionTooLong => |d.houseDescription| > 500
    case NoItems => d.itemId == Some([])
  }

  /**
    `validateHouseDecorationData`: exactly the violated checks, in field order. A present but
    empty item list is rejected (an empty array is truthy); an absent one is not checked.
  */
  method ValidateHouseDecorationData(d: HouseDecorationData) returns (isValid: bool, errors: seq<HouseError>)
    ensures forall e :: e in errors <==> HouseViolates(d, e)
    ensures forall i :: 0 <= i < |errors| - 1 ==> HouseErrorPosition(errors[i]) < HouseErrorPosition(errors[i + 1])
    ensures isValid <==> errors == []
  {
    errors := [];
    if d.houseName != "" {
      if |d.houseName| < 3 {
        errors := errors + [HouseNameTooShort];
      }
      if |d.houseName| > 100 {
        errors := errors + [HouseNameTooLong];
      }
    }
    if d.houseDescription != "" {
      if |d.houseDescription| > 500 {
        errors := errors + [DescriptionTooLong];
      }
    }
    if d.itemId.Some? {
      if |d.itemId.value| == 0 {
        errors := errors + [NoItems];
      }
    }
    isValid := |errors| == 0;
  }

  // ---------------------------------------------------------------------------
  // validateTradeData (lines 326-341)
  // ---------------------------------------------------------------------------

  datatype TradeData = TradeData(matchId: string, itemTaken: string)

  datatype TradeError = NoMatch | NoItem
  {
    function Message(): string {
      match this
      case NoMatch => "Phải chọn trận đấu"
      case NoItem => "Phải chọn vật phẩm"
    }
  }

  /** `validateTradeData`: one error per missing field, the match first. */
  method ValidateTradeData(d: TradeData) returns (isValid: bool, errors: seq<TradeError>)
    ensures NoMatch in errors <==> d.matchId == ""
    ensures NoItem in errors <==> d.itemTaken == ""
    ensures errors == [] || errors == [NoMatch] || errors == [NoItem] || errors == [NoMatch, NoItem]
    ensures isValid <==> errors == []
  {
    errors := [];
    if d.matchId == "" {
      errors := errors + [NoMatch];
    }
    if d.itemTaken == "" {
      errors := errors + [NoItem];
    }
    isValid := |errors| == 0;
  }
}
