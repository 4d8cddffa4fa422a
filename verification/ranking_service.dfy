/**
  Helpers of the ranking service (rankingService.ts): how a rank is displayed and coloured, rank
  and point changes between two seasons' standings, the status of a season at a given instant, and
  the validators for ranking and season data.

  Ranks and points are modelled as integers. The clock and date parsing are parameters: an instant
  is a number of milliseconds, and a date string that does not parse (JavaScript's Invalid Date,
  whose time value is NaN) is `None`.
*/
module RankingService {
  import opened Js
  import opened Validation

  // ---------------------------------------------------------------------------
  // getRankDisplay / getRankColor
  // ---------------------------------------------------------------------------

  const GoldMedal: string := "\U{1F947}"
  const SilverMedal: string := "\U{1F948}"
  const BronzeMedal: string := "\U{1F949}"

  /** A medal for the podium, "#rank" for everyone else. */
  function RankDisplay(rank: int): (s: string)
    ensures rank == 1 <==> s == GoldMedal
    ensures rank == 2 <==> s == SilverMedal
    ensures rank == 3 <==> s == BronzeMedal
    ensures rank != 1 && rank != 2 && rank != 3 ==> s == "#" + IntToString(rank)
  {
    if rank == 1 then GoldMedal
    else if rank == 2 then SilverMedal
    else if rank == 3 then BronzeMedal
    else "#" + IntToString(rank)
  }

  /** Different ranks are displayed differently. */
  lemma RankDisplayInjective(a: int, b: int)
    requires RankDisplay(a) == RankDisplay(b)
    ensures a == b
  {
    if a !in {1, 2, 3} && b !in {1, 2, 3} {
      assert IntToString(a) == RankDisplay(a)[1..];
      IntToStringInjective(a, b);
    }
  }

  /** `getRankColor`: medal colours, then bands up to 10, 50 and 100, then grey. */
  function RankColor(rank: int): (c: string)
    ensures rank == 1 ==> c == "#FFD700"
    ensures rank == 2 ==> c == "#C0C0C0"
    ensures rank == 3 ==> c == "#CD7F32"
    ensures rank != 1 && rank != 2 && rank != 3 && rank <= 10 ==> c == "#4CAF50"
    ensures 10 < rank <= 50 ==> c == "#2196F3"
    ensures 50 < rank <= 100 ==> c == "#FF9800"
    ensures rank > 100 ==> c == "#9E9E9E"
  {
    if rank == 1 then "#FFD700"
    else if rank == 2 then "#C0C0C0"
    else if rank == 3 then "#CD7F32"
    else if rank <= 10 then "#4CAF50"
    else if rank <= 50 then "#2196F3"
    else if rank <= 100 then "#FF9800"
    else "#9E9E9E"
  }

  /** The colour tiers from best to worst; the podium colours share tier 0. */
  function ColorTier(c: string): nat {
    if c == "#FFD700" || c == "#C0C0C0" || c == "#CD7F32" then 0
    else if c == "#4CAF50" then 1
    else if c == "#2196F3" then 2
    else if c == "#FF9800" then 3
    else 4
  }

  /** A better (smaller, positive) rank never gets a worse colour tier. */
  lemma RankColorMonotone(a: int, b: int)
    requires 1 <= a <= b
    ensures ColorTier(RankColor(a)) <= ColorTier(RankColor(b))
  {
  }

  /** A rank of 0 or below, which no validated ranking has, falls into the top-ten band. */
  lemma RankColorNonPositive(rank: int)
    requires rank <= 0
    ensures RankColor(rank) == RankColor(10)
  {
  }

  // ---------------------------------------------------------------------------
  // calculateRankChange / calculatePointsChange
  // ---------------------------------------------------------------------------

  datatype Direction = Up | Down | Same

  /** The direction of a signed change. */
  function DirectionOf(change: int): (d: Direction)
    ensures d == Up <==> change > 0
    ensures d == Down <==> change < 0
    ensures d == Same <==> change == 0
  {
    if change > 0 then Up else if change < 0 then Down else Same
  }

  datatype RankChange = RankChange(change: int, direction: Direction, caption: string)

  /**
    `calculateRankChange`: climbing from previousRank to a smaller currentRank is a positive
    change, shown as "up n places"; falling is shown with the absolute number of places.
  */
  function CalculateRankChange(currentRank: int, previousRank: int): (r: RankChange)
    ensures r.change == previousRank - currentRank
    ensures r.direction == Up <==> currentRank < previousRank
    ensures r.direction == Down <==> currentRank > previousRank
    ensures r.direction == Same <==> currentRank == previousRank
    ensures r.direction == Same ==> r.caption == "Không đổi"
    ensures r.direction == Up ==> r.caption == "Tăng " + IntToString(r.change) + " hạng"
    ensures r.direction == Down ==> r.caption == "Giảm " + IntToString(-r.change) + " hạng"
  {
    var change := previousRank - currentRank;
    var direction := DirectionOf(change);
    var caption :=
      if change > 0 then "Tăng " + IntToString(change) + " hạng"
      else if change < 0 then "Giảm " + IntToString(-change) + " hạng"
      else "Không đổi";
    RankChange(change, direction, caption)
  }

  /** The label alone tells how far and in which direction the rank moved. */
  lemma RankChangeLabelInjective(c1: int, p1: int, c2: int, p2: int)
    requires CalculateRankChange(c1, p1).caption == CalculateRankChange(c2, p2).caption
    ensures CalculateRankChange(c1, p1).change == CalculateRankChange(c2, p2).change
  {
    var r1, r2 := CalculateRankChange(c1, p1), CalculateRankChange(c2, p2);
    var l1, l2 := r1.caption, r2.caption;
    if r1.direction != Same && r2.direction != Same {
      assert l1[..5] == r1.caption[..5];
      var n1 := if r1.direction == Up then r1.change else -r1.change;
      var n2 := if r2.direction == Up then r2.change else -r2.change;
      var w1 := if r1.direction == Up then "Tăng " else "Giảm ";
      var w2 := if r2.direction == Up then "Tăng " else "Giảm ";
      assert l1 == w1 + IntToString(n1) + " hạng";
      assert l2 == w2 + IntToString(n2) + " hạng";
      assert w1 == l1[..5] && w2 == l2[..5];
      assert IntToString(n1) == l1[5..|l1| - 5];
      assert IntToString(n2) == l2[5..|l2| - 5];
      IntToStringInjective(n1, n2);
    }
  }

  /** Swapping the two standings reverses the change. */
  lemma RankChangeAntisymmetric(a: int, b: int)
    ensures CalculateRankChange(a, b).change == -CalculateRankChange(b, a).change
    ensures CalculateRankChange(a, b).direction == Up <==> CalculateRankChange(b, a).direction == Down
  {
  }

  /** `calculatePointsChange` without its label: the signed gain and its direction. */
  datatype PointsChange = PointsChange(change: int, direction: Direction)

  function CalculatePointsChange(currentPoints: int, previousPoints: int): (r: PointsChange)
    ensures r.change == currentPoints - previousPoints
    ensures r.direction == Up <==> currentPoints > previousPoints
    ensures r.direction == Down <==> currentPoints < previousPoints
    ensures r.direction == Same <==> currentPoints == previousPoints
  {
    var change := currentPoints - previousPoints;
    PointsChange(change, DirectionOf(change))
  }

  /**
    Ranks and points use opposite sign conventions so that "up" means better in both: going from
    rank p to rank c is a climb exactly when going from c points to p points is a gain.
  */
  lemma DirectionsAgree(c: int, p: int)
    ensures CalculateRankChange(c, p).direction == CalculatePointsChange(p, c).direction
    ensures CalculateRankChange(c, p).change == CalculatePointsChange(p, c).change
  {
  }

  // ---------------------------------------------------------------------------
  // getSeasonStatus
  // ---------------------------------------------------------------------------

  datatype SeasonStatus = Upcoming | Active | Ended

  /**
    `getSeasonStatus` at instant `now`. A date that does not parse compares false both ways, so it
    neither makes the season upcoming nor ended.
  */
  function GetSeasonStatus(now: int, start: Option<int>, end: Option<int>): (s: SeasonStatus)
    ensures s == Upcoming <==> start.Some? && now < start.value
    ensures s == Ended <==> !(start.Some? && now < start.value) && end.Some? && now > end.value
  {
    if start.Some? && now < start.value then Upcoming
    else if end.Some? && now > end.value then Ended
    else Active
  }

  function StatusOrder(s: SeasonStatus): nat {
    match s
    case Upcoming => 0
    case Active => 1
    case Ended => 2
  }

  /** As time passes a season only moves forward: upcoming, then active, then ended. */
  lemma SeasonStatusMonotone(t1: int, t2: int, start: Option<int>, end: Option<int>)
    requires t1 <= t2
    ensures StatusOrder(GetSeasonStatus(t1, start, end)) <= StatusOrder(GetSeasonStatus(t2, start, end))
  {
  }

  /** For a well-formed season, it is active exactly between its start and end, both included. */
  lemma SeasonActiveWindow(now: int, start: int, end: int)
    requires start <= end
    ensures GetSeasonStatus(now, Some(start), Some(end)) == Active <==> start <= now <= end
  {
  }

  // ---------------------------------------------------------------------------
  // validateRankingData (lines 302-333)
  // ---------------------------------------------------------------------------

  /** A create or update request; an absent string is "", an absent number `None`. */
  datatype RankingData = RankingData(userId: string, totalPoints: Option<int>, rank: Option<int>, season: string)

  datatype RankingError = BlankUserId | NegativePoints | RankBelowOne | BlankSeason
  {
    function Message(): string {
      match this
      case BlankUserId => "ID người dùng không được để trống"
      case NegativePoints => "Tổng điểm không được âm"
      case RankBelowOne => "Hạng phải lớn hơn 0"
      case BlankSeason => "Mùa giải không được để trống"
    }
  }

  function RankingErrorPosition(e: RankingError): nat {
    match e
    case BlankUserId => 0
    case NegativePoints => 1
    case RankBelowOne => 2
    case BlankSeason => 3
  }

  /** A present string made only of whitespace is blank; the empty string is skipped. */
  predicate RankingViolates(d: RankingData, e: RankingError) {
    match e
    case BlankUserId => d.userId != "" && AllWhitespace(d.userId)
    case NegativePoints => d.totalPoints.Some? && d.totalPoints.value < 0
    case RankBelowOne => d.rank.Some? && d.rank.value < 1
    case BlankSeason => d.season != "" && AllWhitespace(d.season)
  }

  method ValidateRankingData(d: RankingData) returns (isValid: bool, errors: seq<RankingError>)
    ensures forall e :: e in errors <==> RankingViolates(d, e)
    ensures forall i :: 0 <= i < |errors| - 1 ==> RankingErrorPosition(errors[i]) < RankingErrorPosition(errors[i + 1])
    ensures isValid <==> errors == []
  {
    errors := [];
    if d.userId != "" {
      var blank := IsBlank(d.userId);
      if blank {
        errors := errors + [BlankUserId];
      }
    }
    if d.totalPoints.Some? {
      if d.totalPoints.value < 0 {
        errors := errors + [NegativePoints];
      }
    }
    if d.rank.Some? {
      if d.rank.value < 1 {
        errors := errors + [RankBelowOne];
      }
    }
    if d.season != "" {
      var blank := IsBlank(d.season);
      if blank {
        errors := errors + [BlankSeason];
      }
    }
    isValid := |errors| == 0;
  }

  // ---------------------------------------------------------------------------
  // validateSeasonData (lines 335-372)
  // ---------------------------------------------------------------------------

  /** An absent description is "". */
  datatype SeasonData = SeasonData(name: string, startDate: string, endDate: string, description: string)

  datatype SeasonError = BlankName | MissingStart | MissingEnd | EndNotAfterStart | DescriptionTooLong
  {
    function Message(): string {
      match this
      case BlankName => "Tên mùa giải không được để trống"
      case MissingStart => "Ngày bắt đầu không được để trống"
      case MissingEnd => "Ngày kết thúc không được để trống"
      case EndNotAfterStart => "Ngày kết thúc phải sau ngày bắt đầu"
      case DescriptionTooLong => "Mô tả không được quá 500 ký tự"
    }
  }

  function SeasonErrorPosition(e: SeasonError): nat {
    match e
    case BlankName => 0
    case MissingStart => 1
    case MissingEnd => 2
    case EndNotAfterStart => 3
    case DescriptionTooLong => 4
  }

  /**
    The dates are only compared when both are given and both parse; a comparison involving an
    unparsable date is false, so it raises no error.
  */
  predicate SeasonViolates(parseDate: string -> Option<int>, d: SeasonData, e: SeasonError) {
    match e
    case BlankName => AllWhitespace(d.name)
    case MissingStart => d.startDate == ""
    case MissingEnd => d.endDate == ""
    case EndNotAfterStart =>
      d.startDate != "" && d.endDate != ""
      && parseDate(d.startDate).Some? && parseDate(d.endDate).Some?
      && parseDate(d.startDate).value >= parseDate(d.endDate).value
    case DescriptionTooLong => |d.description| > 500
  }

  method ValidateSeasonData(parseDate: string -> Option<int>, d: SeasonData) returns (isValid: bool, errors: seq<SeasonError>)
    ensures forall e :: e in errors <==> SeasonViolates(parseDate, d, e)
    ensures forall i :: 0 <= i < |errors| - 1 ==> SeasonErrorPosition(errors[i]) < SeasonErrorPosition(errors[i + 1])
    ensures isValid <==> errors == []
  {
    errors := [];
    var blankName := IsBlank(d.name);
    if blankName {
      errors := errors + [BlankName];
    }
    if d.startDate == "" {
      errors := errors + [MissingStart];
    }
    if d.endDate == "" {
      errors := errors + [MissingEnd];
    }
    if d.startDate != "" && d.endDate != "" {
      var startDate := parseDate(d.startDate);
      var endDate := parseDate(d.endDate);
      if startDate.Some? && endDate.Some? && startDate.value >= endDate.value {
        errors := errors + [EndNotAfterStart];
      }
    }
    if d.description != "" && |d.description| > 500 {
      errors := errors + [DescriptionTooLong];
    }
    isValid := |errors| == 0;
  }

  /** A missing date and a wrongly ordered pair of dates never come together: at most four errors. */
  lemma SeasonErrorsAtMostFour(parseDate: string -> Option<int>, d: SeasonData, errors: seq<SeasonError>)
    requires forall e :: e in errors <==> SeasonViolates(parseDate, d, e)
    requires forall i :: 0 <= i < |errors| - 1 ==> SeasonErrorPosition(errors[i]) < SeasonErrorPosition(errors[i + 1])
    ensures |errors| <= 4
  {
    assert InOrder(errors, SeasonErrorPosition);
    if d.startDate == "" || d.endDate == "" {
      InOrderWithin(errors, SeasonErrorPosition, [BlankName, MissingStart, MissingEnd, DescriptionTooLong]);
    } else {
      InOrderWithin(errors, SeasonErrorPosition, [BlankName, EndNotAfterStart, DescriptionTooLong]);
    }
  }
}
