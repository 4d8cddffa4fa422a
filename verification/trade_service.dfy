/**
  The validator of the trade service (tradeService.ts): a trade needs the match it belongs to and
  the item taken.
*/
module TradeService {

  /** An absent string is "". */
  datatype TradeData = TradeData(matchId: string, itemTaken: string)

  datatype TradeError = MissingMatch | MissingItem
  {
    function Message(): string {
      match this
      case MissingMatch => "ID trận đấu là bắt buộc"
      case MissingItem => "ID vật phẩm được lấy là bắt buộc"
    }
  }

  /** `validateTradeData`: one error per missing field, the match first. */
  method ValidateTradeData(d: TradeData) returns (isValid: bool, errors: seq<TradeError>)
    ensures MissingMatch in errors <==> d.matchId == ""
    ensures MissingItem in errors <==> d.itemTaken == ""
    ensures errors == [] || errors == [MissingMatch] || errors == [MissingItem] || errors == [MissingMatch, MissingItem]
    ensures isValid <==> errors == []
  {
    errors := [];
    if d.matchId == "" {
      errors := errors + [MissingMatch];
    }
    if d.itemTaken == "" {
      errors := errors + [MissingItem];
    }
    isValid := |errors| == 0;
  }
}
