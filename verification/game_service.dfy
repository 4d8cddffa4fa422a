/**
  Helpers of the game service (gameService.ts): the difficulty and match-status tables, the
  `m:ss` rendering of a match's length, and the validators for game challenges and matches.
*/
module GameService {
  import opened Js
  import opened Validation

  // ---------------------------------------------------------------------------
  // Label and colour tables (lines 199-235)
  // ---------------------------------------------------------------------------

  predicate IsDifficulty(d: string) {
    d == "easy" || d == "medium" || d == "hard"
  }

  predicate IsMatchStatus(s: string) {
    s == "waiting" || s == "ongoing" || s == "completed" || s == "cancelled"
  }

  /** `getDifficultyColor`: green, orange, red; grey for anything else. */
  function DifficultyColor(difficulty: string): (c: string)
    ensures !IsDifficulty(difficulty) <==> c == "#9E9E9E"
  {
    match difficulty
    case "easy" => "#4CAF50"
    case "medium" => "#FF9800"
    case "hard" => "#F44336"
    case _ => "#9E9E9E"
  }

  /** `getDifficultyLabel`: one Vietnamese label per level, "unknown" for anything else. */
  function DifficultyLabel(difficulty: string): (l: string)
    ensures !IsDifficulty(difficulty) <==> l == "Không xác định"
  {
    match difficulty
    case "easy" => "Dễ"
    case "medium" => "Trung bình"
    case "hard" => "Khó"
    case _ => "Không xác định"
  }

  /** `getStatusColor`: one colour per status, grey for anything else. */
  function StatusColor(status: string): (c: string)
    ensures !IsMatchStatus(status) <==> c == "#9E9E9E"
  {
    match status
    case "waiting" => "#2196F3"
    case "ongoing" => "#FF9800"
    case "completed" => "#4CAF50"
    case "cancelled" => "#F44336"
    case _ => "#9E9E9E"
  }

  /** `getStatusLabel`: one Vietnamese label per status, "unknown" for anything else. */
  function StatusLabel(status: string): (l: string)
    ensures !IsMatchStatus(status) <==> l == "Không xác định"
  {
    match status
    case "waiting" => "Chờ"
    case "ongoing" => "Đang diễn ra"
    case "completed" => "Hoàn thành"
    case "cancelled" => "Đã hủy"
    case _ => "Không xác định"
  }

  /** Different levels get different labels and colours; so do different statuses. */
  lemma GameTablesInjective(a: string, b: string)
    requires a != b
    ensures IsDifficulty(a) && IsDifficulty(b) ==>
              DifficultyLabel(a) != DifficultyLabel(b) && DifficultyColor(a) != DifficultyColor(b)
    ensures IsMatchStatus(a) && IsMatchStatus(b) ==>
              StatusLabel(a) != StatusLabel(b) && StatusColor(a) != StatusColor(b)
  {
  }

  // ---------------------------------------------------------------------------
  // formatMatchDuration (lines 237-244)
  // ---------------------------------------------------------------------------

  /**
    The text for a duration in milliseconds: minutes `Math.floor(d / 60000)`, then seconds
    `Math.floor((d % 60000) / 1000)` with the truncating `%`, padded to two characters with '0'.
  */
  function DurationText(duration: int): (r: string)
    ensures r != [] && (r[0] == '-' || IsDigit(r[0]))
  {
    var minutes := IntToString(duration / 60000);
    var seconds := PadStart(IntToString(IntRem(duration, 60000) / 1000), 2, '0');
    assert (minutes + ":" + seconds)[0] == minutes[0];
    minutes + ":" + seconds
  }

  /**
    `formatMatchDuration` with the two `Date` values given as milliseconds since the epoch, or
    `None` for a string `Date` cannot parse (its time is NaN, and so is every step after it).
  */
  function FormatMatchDuration(startTime: Option<int>, endTime: Option<int>): (r: string)
    ensures r == "NaN:NaN" <==> startTime.None? || endTime.None?
    ensures startTime.Some? && endTime.Some? ==> r == DurationText(endTime.value - startTime.value)
  {
    if startTime.None? || endTime.None? then "NaN:NaN" else DurationText(endTime.value - startTime.value)
  }

  /** The seconds field: a number below 100 padded to two digits reads back as itself. */
  lemma TwoDigits(s: nat)
    requires s < 100
    ensures |PadStart(NatToString(s), 2, '0')| == 2
    ensures AllDigits(PadStart(NatToString(s), 2, '0'))
    ensures ParseNat(PadStart(NatToString(s), 2, '0')) == s
  {
    var t := PadStart(NatToString(s), 2, '0');
    if s < 10 {
      assert t == ['0', DigitChar(s)];
      assert t[..1] == ['0'] && ['0'][..0] == "";
    } else {
      ParseNatToString(s);
    }
  }

  /** Whole minutes and whole seconds below 60 that make up d, cut down to the second. */
  lemma MinutesSeconds(d: nat)
    ensures (d % 60000) / 1000 < 60
    ensures (d / 60000) * 60000 + ((d % 60000) / 1000) * 1000 <= d
    ensures d < (d / 60000) * 60000 + ((d % 60000) / 1000) * 1000 + 1000
  {
    var q, rem := d / 60000, d % 60000;
    assert d == q * 60000 + rem && rem < 60000;
    var s, t := rem / 1000, rem % 1000;
    assert rem == s * 1000 + t && t < 1000;
  }

  /** The parts of "<minutes>:<two characters>". */
  lemma ColonParts(ms: string, ss: string)
    requires |ss| == 2
    ensures var r := ms + ":" + ss;
            |r| == |ms| + 3 && r[|r| - 3] == ':' && r[..|r| - 3] == ms && r[|r| - 2..] == ss
  {
  }

  /**
    A non-negative duration is shown as "m:ss": reading the text back gives whole minutes and
    fewer than 60 whole seconds that together are the duration cut down to the second.
  */
  lemma DurationTextReadsBack(d: nat)
    ensures var r := DurationText(d);
            |r| >= 4 && r[|r| - 3] == ':' && AllDigits(r[..|r| - 3]) && AllDigits(r[|r| - 2..]) &&
            var m, s := ParseNat(r[..|r| - 3]), ParseNat(r[|r| - 2..]);
            s < 60 && m * 60000 + s * 1000 <= d < m * 60000 + s * 1000 + 1000
  {
    var m, sec := d / 60000, (d % 60000) / 1000;
    MinutesSeconds(d);
    var ms, ss := NatToString(m), PadStart(NatToString(sec), 2, '0');
    TwoDigits(sec);
    ParseNatToString(m);
    ColonParts(ms, ss);
    assert DurationText(d) == ms + ":" + ss;
  }

  // ---------------------------------------------------------------------------
  // validateGameChallengeData (lines 247-275)
  // ---------------------------------------------------------------------------

  /** A create or update request; absent strings are "", an absent reward is `None`. */
  datatype GameChallengeData = GameChallengeData(title: string, difficulty: string, rewardPoints: Option<int>)

  datatype GameChallengeError = TitleTooShort | TitleTooLong | InvalidDifficulty | NegativeReward
  {
    function Message(): string {
      match this
      case TitleTooShort => "Tiêu đề phải có ít nhất 3 ký tự"
      case TitleTooLong => "Tiêu đề không được quá 100 ký tự"
      case InvalidDifficulty => "Độ khó không hợp lệ"
      case NegativeReward => "Điểm thưởng không được âm"
    }
  }

  function GameChallengeErrorPosition(e: GameChallengeError): nat {
    match e
    case TitleTooShort => 0
    case TitleTooLong => 0
    case InvalidDifficulty => 1
    case NegativeReward => 2
  }

  /** An empty title or difficulty is not checked; a reward of 0 is accepted. */
  predicate GameChallengeViolates(d: GameChallengeData, e: GameChallengeError) {
    match e
    case TitleTooShort => 0 < |d.title| < 3
    case TitleTooLong => |d.title| > 100
    case InvalidDifficulty => d.difficulty != "" && !IsDifficulty(d.difficulty)
    case NegativeReward => d.rewardPoints.Some? && d.rewardPoints.value < 0
  }

  /** `validateGameChallengeData`: exactly the failed checks, in field order. */
  method ValidateGameChallengeData(d: GameChallengeData) returns (isValid: bool, errors: seq<GameChallengeError>)
    ensures forall e :: e in errors <==> GameChallengeViolates(d, e)
    ensures forall i :: 0 <= i < |errors| - 1 ==> GameChallengeErrorPosition(errors[i]) < GameChallengeErrorPosition(errors[i + 1])
    ensures isValid <==> errors == []
  {
    errors := [];
    if d.title != "" {
      if |d.title| < 3 {
        errors := errors + [TitleTooShort];
      }
      if |d.title| > 100 {
        errors := errors + [TitleTooLong];
      }
    }
    if d.difficulty != "" {
      if !IsDifficulty(d.difficulty) {
        errors := errors + [InvalidDifficulty];
      }
    }
    if d.rewardPoints.Some? {
      if d.rewardPoints.value < 0 {
        errors := errors + [NegativeReward];
      }
    }
    isValid := |errors| == 0;
  }

  /** A bad title gets one error, never two, so there are at most three errors. */
  lemma GameChallengeErrorsAtMostThree(d: GameChallengeData, errors: seq<GameChallengeError>)
    requires forall e :: e in errors <==> GameChallengeViolates(d, e)
    requires forall i :: 0 <= i < |errors| - 1 ==> GameChallengeErrorPosition(errors[i]) < GameChallengeErrorPosition(errors[i + 1])
    ensures |errors| <= 3
    ensures !(TitleTooShort in errors && TitleTooLong in errors)
  {
    assert InOrder(errors, GameChallengeErrorPosition);
    InOrderBound(errors, GameChallengeErrorPosition, 3);
  }

  // ---------------------------------------------------------------------------
  // validateMatchData (lines 277-296)
  // ---------------------------------------------------------------------------

  /** A match request; an absent player list is `None`, an absent challenge id "". */
  datatype MatchData = MatchData(players: Option<seq<string>>, gameChallengeId: string)

  datatype MatchError = NoPlayers | TooManyPlayers | MissingChallenge
  {
    function Message(): string {
      match this
      case NoPlayers => "Phải có ít nhất 1 người chơi"
      case TooManyPlayers => "Không được quá 4 người chơi"
      case MissingChallenge => "Phải chọn thử thách game"
    }
  }

  function MatchErrorPosition(e: MatchError): nat {
    match e
    case NoPlayers => 0
    case TooManyPlayers => 0
    case MissingChallenge => 1
  }

  const MaxPlayers: nat := 4

  predicate MatchViolates(d: MatchData, e: MatchError) {
    match e
    case NoPlayers => d.players == None || d.players == Some([])
    case TooManyPlayers => d.players.Some? && |d.players.value| > MaxPlayers
    case MissingChallenge => d.gameChallengeId == ""
  }

  /** `validateMatchData`: exactly the failed checks, in field order. */
  method ValidateMatchData(d: MatchData) returns (isValid: bool, errors: seq<MatchError>)
    ensures forall e :: e in errors <==> MatchViolates(d, e)
    ensures forall i :: 0 <= i < |errors| - 1 ==> MatchErrorPosition(errors[i]) < MatchErrorPosition(errors[i + 1])
    ensures isValid <==> errors == []
  {
    errors := [];
    if d.players.None? || |d.players.value| == 0 {
      errors := errors + [NoPlayers];
    }
    if d.players.Some? && |d.players.value| > MaxPlayers {
      errors := errors + [TooManyPlayers];
    }
    if d.gameChallengeId == "" {
      errors := errors + [MissingChallenge];
    }
    isValid := |errors| == 0;
  }

  /** A match is accepted exactly when it has one to four players and a challenge. */
  lemma MatchAcceptedWindow(d: MatchData, errors: seq<MatchError>)
    requires forall e :: e in errors <==> MatchViolates(d, e)
    ensures errors == [] <==>
              d.players.Some? && 1 <= |d.players.value| <= 4 && d.gameChallengeId != ""
  {
    if errors == [] {
      assert !MatchViolates(d, NoPlayers) && !MatchViolates(d, TooManyPlayers) && !MatchViolates(d, MissingChallenge);
    } else {
      assert errors[0] in errors;
    }
  }
}
