# GLC GameLearn front end — verified model of its pure logic

GLC GameLearn is a learning-game web client. Players spin a prize wheel, trade and collect items, and
climb rankings. Administrators manage items, games, certificates and subjects. This project models,
in Dafny, the client-side logic that decides something:

- **The prize wheel component** (`working-lucky-wheel.tsx`). The forward formula turns a target
  slot into the rotation at which the wheel stops. The backward formula, in the timer callback,
  turns a final rotation into the slot it reports. `handleSpin` is modelled as a small state
  machine. It has a disabled/animating guard, a server-chosen or random target, and a settle step
  that reports what the backward formula gives. The model also states which slot is painted under
  the arrow, so each formula can be compared with the drawing.
- **The lucky-wheel service and page.** The service has the probability check, the cumulative
  prize table, and the analytics aggregation (percentages, spins per day sorted by day). The page
  de-duplicates its 18-entry legend by text.
- **The field validators of the services.** These are items, house decorations, trades,
  certificates, rankings, seasons, game challenges, matches, users, passwords and user names. Each
  one builds an ordered list of Vietnamese error messages.
- **The small pure mappings.** These are rank display and colour, rank and points change, season
  status, match duration `m:ss`, display name and initials, item type labels, and the next lesson
  number.
- **Three pages.**
  - The admin items page: API origin, image path check, image URL resolution, and the validation
    gate before a request.
  - The sign-up form: per-field error record, and the payload without `confirmPassword`.
  - The sign-in form.

Each core source file is one Dafny module.
- `Js` gathers the JavaScript semantics the modules share:
  - truncated `%`;
  - the whitespace set of `\s` and `trim`;
  - `split`/`join` on one character;
  - integer-to-string;
  - `padStart`;
  - ASCII upper-casing.
- `Validation` gathers facts about error lists kept in field order.
- `EmailPatterns` states the two email regular expressions of the code base as predicates.

Conventions of the model:
- Every validator method is proved against a predicate `XViolates(data, e)` that states what each
  error kind means:
  - an error is in the list exactly when its check fails;
  - errors appear in the order the fields are checked;
  - `isValid` holds exactly when the list is empty.

  Each kind's `Message()` is the exact string the code pushes.
- Absent optional strings are modelled as `""`, since every check goes through JavaScript
  truthiness. Absent numbers and arrays are `None`.
- Angles, prices and probabilities are exact reals. Ranks, points, counts and durations are
  integers.
- Where the behaviour described for the system and the code differ, the model follows the code.
  Example: the wheel's forward formula aims the pointer at the middle of the target slot, but the
  backward formula as written reports the next slot. The settle step reports what the code reports.
  See "## Findings".

## Model

| member | source | states |
|---|---|---|
| WorkingLuckyWheel.DefaultSegments | frontend/src/components/working-lucky-wheel.tsx:50-69 | there are eighteen built-in segments |
| WorkingLuckyWheel.EffectiveSegments | frontend/src/components/working-lucky-wheel.tsx:71-73 | the caller's segments are used when present and non-empty, otherwise the 18 defaults; never empty |
| WorkingLuckyWheel.PointerBaseAngle | frontend/src/components/working-lucky-wheel.tsx:79-84 | top, right, bottom and left give 90, 0, 270 and 180 degrees, one angle per position |
| WorkingLuckyWheel.SegmentAngle | frontend/src/components/working-lucky-wheel.tsx:77 | `360 / N` is positive and N of them make a full turn |
| WorkingLuckyWheel.SlotCenterInCircle | frontend/src/components/working-lucky-wheel.tsx:85 | the centre of slot i lies inside slot i's arc, and strictly inside (0, 360) for a real slot |
| WorkingLuckyWheel.NormalizeAngle | frontend/src/components/working-lucky-wheel.tsx:90 | the double-remainder form lands in [0, 360) for every rotation, negative ones included, a whole number of turns from its input |
| WorkingLuckyWheel.ShiftedRem | frontend/src/components/working-lucky-wheel.tsx:87 | `(x + 360) % 360` is a whole number of turns from x; it is in [0, 360) when x >= -360 and in (-360, 0] below that |
| WorkingLuckyWheel.ShiftedRemBelowMinusTurn | frontend/src/components/working-lucky-wheel.tsx:87-90 | for -400 the single-remainder form gives -40 where the double-remainder form gives 320 |
| WorkingLuckyWheel.ShiftedRemIsNormalize | frontend/src/components/working-lucky-wheel.tsx:87-91 | from -360 upwards the two forms agree |
| WorkingLuckyWheel.FinalWheelAngle | frontend/src/components/working-lucky-wheel.tsx:85-87 | the final wheel angle is a whole number of turns from aim minus the slot centre, and in [0, 360) when aim >= 0 |
| WorkingLuckyWheel.TargetRotation | frontend/src/components/working-lucky-wheel.tsx:76-93 | the target is strictly past the current rotation; it is a whole number of turns from the final wheel angle; with aim >= 0 it is between 5 and 6 turns ahead |
| WorkingLuckyWheel.StopAngle | frontend/src/components/working-lucky-wheel.tsx:87-92 | the stopped wheel, normalised, is exactly the final wheel angle |
| WorkingLuckyWheel.AngleFromPointerAtCenter | frontend/src/components/working-lucky-wheel.tsx:85-92 | seen from the pointer, the stopped wheel shows exactly the centre of the target slot |
| WorkingLuckyWheel.WinningIndex | frontend/src/components/working-lucky-wheel.tsx:122-131 | with aim >= 0 the index the timer callback computes lies in [0, N) for every final rotation |
| WorkingLuckyWheel.CentreReadsAsNext | frontend/src/components/working-lucky-wheel.tsx:130-131 | when the pointer sees the centre of slot i, the callback's formula reports (i + 1) mod N |
| WorkingLuckyWheel.RoundTripAsWritten | frontend/src/components/working-lucky-wheel.tsx:76-131 | backward(forward(i)) is (i + 1) mod N for every current rotation and slot |
| WorkingLuckyWheel.AsWrittenNeverInverse | frontend/src/components/working-lucky-wheel.tsx:76-131 | with two or more slots, the code never reports the slot it aimed at |
| WorkingLuckyWheel.AsWrittenFourSlots | frontend/src/components/working-lucky-wheel.tsx:76-131 | four slots, top pointer, from rest, target 2: the wheel stops at 2025 degrees and the callback reports slot 3 |
| WorkingLuckyWheel.SlotUnderPointer | frontend/src/components/working-lucky-wheel.tsx:130-131 | the backward formula without line 131's extra half slot, `Math.floor(angleFromPointer / segmentAngle) % N`, gives an index in [0, N) |
| WorkingLuckyWheel.PaintedSlot | frontend/src/components/working-lucky-wheel.tsx:150-152 | the slot painted under the arrow (slot i on [i*s, (i+1)*s) clockwise from the top, the wheel turned clockwise, the arrow always at the top) is in [0, N) and its arc holds the point the arrow sees |
| WorkingLuckyWheel.SlotUnderPointerPaintedWhenAimZero | frontend/src/components/working-lucky-wheel.tsx:122-131 | with an aim of 0 degrees the formula without the extra half slot reads the painted slot |
| WorkingLuckyWheel.SlotOfCenter | frontend/src/components/working-lucky-wheel.tsx:85 | the centre of slot i falls in slot i's arc |
| WorkingLuckyWheel.RoundTrip | frontend/src/components/working-lucky-wheel.tsx:75-131 | the backward formula without the extra half slot is an exact inverse of the forward one |
| WorkingLuckyWheel.FindIndex | frontend/src/components/working-lucky-wheel.tsx:109 | `findIndex` gives the first segment with the id, or -1 exactly when none has it |
| WorkingLuckyWheel.TargetIndex | frontend/src/components/working-lucky-wheel.tsx:109 | a known id gives its first slot; an unknown id falls back to slot 0 |
| WorkingLuckyWheel.SegmentAt | frontend/src/components/working-lucky-wheel.tsx:132 | indexing gives a segment exactly inside the list |
| WorkingLuckyWheel.Wheel.constructor | frontend/src/components/working-lucky-wheel.tsx:35-73 | a new wheel is at rotation 0, not animating, nothing pending, with the effective segments |
| WorkingLuckyWheel.Wheel.Spin | frontend/src/components/working-lucky-wheel.tsx:95-142 | a click while disabled or animating changes nothing; a rejected request ends the animation; a resolved one remembers the id and rotates to the target; without a request the wheel turns 5 turns plus the random angle |
| WorkingLuckyWheel.Wheel.Settle | frontend/src/components/working-lucky-wheel.tsx:120-141 | the timer ends the animation, clears the pending id and reports the segment at line 131's index (`undefined` outside the list), a segment whenever the aim is non-negative |
| WorkingLuckyWheel.SpinToTarget | frontend/src/components/working-lucky-wheel.tsx:95-141 | a server-driven spin on a fresh wheel reports the segment after the one the server chose (after slot 0 for an unknown id), wrapping round after the last |
| LuckyWheelService.Total | frontend/src/services/luckyWheelService.ts:158 | the `reduce` sum of the probabilities, starting at 0, is non-negative when every probability is |
| LuckyWheelService.TotalAppend | frontend/src/services/luckyWheelService.ts:158 | the probability sum splits over concatenation |
| LuckyWheelService.PrefixTotalMonotone | frontend/src/services/luckyWheelService.ts:162-171 | with non-negative probabilities, a longer prefix never sums to less |
| LuckyWheelService.ValidatePrizeProbability | frontend/src/services/luckyWheelService.ts:157-160 | accepted exactly when the sum is within 0.01 of 100; an empty list is rejected |
| LuckyWheelService.CalculatePrizeDistribution | frontend/src/services/luckyWheelService.ts:162-171 | one entry per prize, in order, carrying the prize; entry k holds the sum of prizes 0..k; the last holds the total |
| LuckyWheelService.CumulativeNonDecreasing | frontend/src/services/luckyWheelService.ts:162-171 | with non-negative probabilities the cumulative values never decrease |
| LuckyWheelService.ValidatedTableEndsNear100 | frontend/src/services/luckyWheelService.ts:157-171 | a table that passes the check is non-empty and its last cumulative value is within 0.01 of 100 |
| LuckyWheelService.Percentage | frontend/src/services/luckyWheelService.ts:192 | count/total*100 when there are spins, 0 otherwise, and within [0, 100] for a count up to the total |
| LuckyWheelService.PrizeDistribution | frontend/src/services/luckyWheelService.ts:189-193 | one share per prize statistic, in order, with its id, count and percentage |
| LuckyWheelService.SharePercentScales | frontend/src/services/luckyWheelService.ts:189-193 | the percentages add up to 100 times the counts over the total |
| LuckyWheelService.SharesSumTo100 | frontend/src/services/luckyWheelService.ts:189-193 | when the counts add up to the total, the percentages add up to exactly 100 |
| LuckyWheelService.BeforeIrreflexive | frontend/src/services/luckyWheelService.ts:204 | no day key sorts before itself |
| LuckyWheelService.BeforeTotal | frontend/src/services/luckyWheelService.ts:204 | of two different day keys one sorts first |
| LuckyWheelService.BeforeAsymmetric | frontend/src/services/luckyWheelService.ts:204 | two keys never sort before each other |
| LuckyWheelService.BeforeTransitive | frontend/src/services/luckyWheelService.ts:204 | the key order is transitive |
| LuckyWheelService.Insert | frontend/src/services/luckyWheelService.ts:204 | inserting a row with a new day into a sorted list keeps it sorted, adds exactly that row, and adds its count |
| LuckyWheelService.FindDate | frontend/src/services/luckyWheelService.ts:200 | `Map.get`: the row holding the day, or -1 exactly when no row has it |
| LuckyWheelService.CountByDay | frontend/src/services/luckyWheelService.ts:196-200 | the map's rows have distinct days, cover exactly the days seen, count each day's occurrences and add up to the number of spins |
| LuckyWheelService.CountStepSeen | frontend/src/services/luckyWheelService.ts:200 | adding one to a day already in the map keeps the counts exact |
| LuckyWheelService.CountStepNew | frontend/src/services/luckyWheelService.ts:200 | a new day enters the map with count 1 and the counts stay exact |
| LuckyWheelService.SortByDate | frontend/src/services/luckyWheelService.ts:202-204 | sorting rows with distinct days yields a sorted list with the same rows and the same total |
| LuckyWheelService.DailySpins | frontend/src/services/luckyWheelService.ts:196-204 | the daily rows are sorted by day, one per distinct day, each with that day's count, and add up to the number of spins |
| LuckyWheelPage.Legend | frontend/src/pages/LuckyWheelPage.tsx:27-46 | the legend has 18 entries |
| LuckyWheelPage.TextsMembers | frontend/src/pages/LuckyWheelPage.tsx:50-57 | the set of seen texts holds exactly the texts of the segments visited |
| LuckyWheelPage.UniqueSegments | frontend/src/pages/LuckyWheelPage.tsx:49-59 | the loop with its `Set` and result array computes the keep-first de-duplication |
| LuckyWheelPage.KeepFirstDistinctAndComplete | frontend/src/pages/LuckyWheelPage.tsx:49-59 | no two kept entries share a text, every input text is kept, and the output is no longer than the input |
| LuckyWheelPage.FirstIndices | frontend/src/pages/LuckyWheelPage.tsx:52-57 | the output is a subsequence of the input at increasing positions, each the first position holding its text |
| LuckyWheelPage.KeepFirstOfDistinct | frontend/src/pages/LuckyWheelPage.tsx:49-59 | a list with distinct texts is left unchanged |
| LuckyWheelPage.KeepFirstIdempotent | frontend/src/pages/LuckyWheelPage.tsx:49-59 | de-duplicating twice is the same as once |
| LuckyWheelPage.StepKeep | frontend/src/pages/LuckyWheelPage.tsx:53-56 | a new text is added to the seen set and kept |
| LuckyWheelPage.StepSkip | frontend/src/pages/LuckyWheelPage.tsx:53-56 | a text already seen is skipped |
| LuckyWheelPage.LegendUpTo3 | frontend/src/pages/LuckyWheelPage.tsx:27-30 | the first 3 legend entries have 3 distinct texts |
| LuckyWheelPage.LegendUpTo6 | frontend/src/pages/LuckyWheelPage.tsx:27-33 | the first 6 entries have 6 distinct texts |
| LuckyWheelPage.LegendUpTo9 | frontend/src/pages/LuckyWheelPage.tsx:27-36 | the first 9 entries have 8 distinct texts |
| LuckyWheelPage.LegendUpTo12 | frontend/src/pages/LuckyWheelPage.tsx:27-39 | the first 12 entries have 10 distinct texts |
| LuckyWheelPage.LegendUpTo15 | frontend/src/pages/LuckyWheelPage.tsx:27-42 | the first 15 entries have 11 distinct texts |
| LuckyWheelPage.LegendUpTo18 | frontend/src/pages/LuckyWheelPage.tsx:27-46 | all 18 entries have 14 distinct texts |
| LuckyWheelPage.LegendHas14Prizes | frontend/src/pages/LuckyWheelPage.tsx:27-59 | the page lists 14 prizes |
| LuckyWheelPage.PageGeometry | frontend/src/pages/LuckyWheelPage.tsx:294-295 | the page's wheel has 18 slots and aims at 350 degrees (top plus 260) |
| LuckyWheelPage.PageWheelBehaves | frontend/src/pages/LuckyWheelPage.tsx:294-295 | on the page line 131 reports one of the 18 slots for every stop, and it is the slot painted under the arrow |
| LuckyWheelPage.PageSeenFromAim | frontend/src/pages/LuckyWheelPage.tsx:294-295 | on the page the arrow sees the wheel 10 degrees past line 131's angle from the pointer, up to whole turns |
| LuckyWheelPage.PageReading | frontend/src/pages/LuckyWheelPage.tsx:294-295 | with 18 slots, reading `afp` the way line 131 does gives the slot of the angle 10 degrees further on |
| LuckyWheelPage.PageTargetStopsOnEdge | frontend/src/pages/LuckyWheelPage.tsx:294-295 | a spin aimed at slot i would stop with the arrow exactly on the edge where slot i + 1 begins (slot 0 after the last) |
| LuckyWheelPage.CentreSeenOnEdge | frontend/src/pages/LuckyWheelPage.tsx:294-295 | whenever line 131 sees the centre of slot i on the page, the arrow is on the start edge of slot i + 1 |
| LuckyWheelPage.PageEdge | frontend/src/pages/LuckyWheelPage.tsx:294-295 | the arithmetic of that edge, including the wrap from slot 17 to slot 0 |
| LuckyWheelPage.PageSpin | frontend/src/pages/LuckyWheelPage.tsx:294-313 | a click on the page's wheel is a random spin of 5 turns plus `Math.random() * 360` degrees (no `onSpinRequest` is passed), and the segment reported is the one painted under the arrow |
| ItemService.ItemTypeColor | frontend/src/services/itemService.ts:223-232 | the grey default is given exactly for an unknown type |
| ItemService.ItemTypeLabel | frontend/src/services/itemService.ts:234-243 | "Không xác định" is given exactly for an unknown type |
| ItemService.ItemTypeTablesInjective | frontend/src/services/itemService.ts:223-243 | the five types have distinct labels and distinct colours |
| ItemService.TotalValue | frontend/src/services/itemService.ts:252-254 | the `reduce` sum of the item prices, starting at 0, is non-negative when every price is |
| ItemService.TotalValueAppend | frontend/src/services/itemService.ts:252-254 | the total of no items is 0, and totals add over concatenation |
| ItemService.TotalValueSwap | frontend/src/services/itemService.ts:252-254 | the total does not depend on the order of the items |
| ItemService.ValidateItemData | frontend/src/services/itemService.ts:257-291 | exactly the failed checks (name length, type, negative price, image prefix), in field order; valid exactly when none failed |
| ItemService.ItemErrorsAtMostFour | frontend/src/services/itemService.ts:257-291 | at most four errors, one per field |
| ItemService.ValidateHouseDecorationData | frontend/src/services/itemService.ts:293-324 | exactly the failed checks (item list present but empty, name length, description length), in order; valid exactly when none failed |
| ItemService.ValidateTradeData | frontend/src/services/itemService.ts:326-341 | an error for a missing match and one for a missing item, in that order and nothing else; valid exactly when neither |
| HouseDecorService.ValidateHouseDecorData | frontend/src/services/houseDecorService.ts:92-115 | exactly the failed checks (blank name, blank description, missing or empty items, more than 10 items), in order; valid exactly when none failed |
| HouseDecorService.HouseDecorErrorsAtMostThree | frontend/src/services/houseDecorService.ts:92-115 | at most three errors, since an empty list and more than ten items exclude each other |
| HouseDecorService.ItemCountWindow | frontend/src/services/houseDecorService.ts:103-109 | a present list raises an item-count error exactly when it is empty or has more than 10 items |
| CertificateService.ValidateCertificateData | frontend/src/services/certificateService.ts:96-119 | exactly the failed checks (blank name, blank description, missing challenge, missing match), in field order; valid exactly when none failed |
| CertificateService.EmptyCertificateErrors | frontend/src/services/certificateService.ts:96-119 | an empty request gets all four errors in field order |
| TradeService.ValidateTradeData | frontend/src/services/tradeService.ts:105-120 | an error for a missing match and one for a missing item, in that order and nothing else; valid exactly when neither |
| RankingService.RankDisplay | frontend/src/services/rankingService.ts:205-210 | ranks 1, 2 and 3 and only they get the gold, silver and bronze medals; any other rank is "#" and its decimal form |
| RankingService.RankDisplayInjective | frontend/src/services/rankingService.ts:205-210 | different ranks are displayed differently |
| RankingService.RankColor | frontend/src/services/rankingService.ts:212-220 | medal colours for 1 to 3, then green up to 10, blue up to 50, orange up to 100, grey above |
| RankingService.RankColorMonotone | frontend/src/services/rankingService.ts:212-220 | a worse positive rank never gets a better colour band |
| RankingService.RankColorNonPositive | frontend/src/services/rankingService.ts:212-220 | a rank of 0 or below falls in the top-ten green band |
| RankingService.DirectionOf | frontend/src/services/rankingService.ts:238-250 | up exactly for a positive change, down exactly for a negative one, same exactly for zero |
| RankingService.CalculateRankChange | frontend/src/services/rankingService.ts:233-251 | the change is previous minus current; direction up exactly when the rank improved, down when it worsened, same otherwise; the label carries the absolute change |
| RankingService.RankChangeLabelInjective | frontend/src/services/rankingService.ts:233-251 | two rank changes with the same label have the same change |
| RankingService.RankChangeAntisymmetric | frontend/src/services/rankingService.ts:233-251 | swapping the ranks negates the change and swaps up and down |
| RankingService.CalculatePointsChange | frontend/src/services/rankingService.ts:253-271 | the change is current minus previous, with the same sign-to-direction rule |
| RankingService.DirectionsAgree | frontend/src/services/rankingService.ts:233-271 | a rank change equals the points change with the arguments swapped |
| RankingService.GetSeasonStatus | frontend/src/services/rankingService.ts:273-281 | upcoming exactly before the start, ended exactly after the end (and not upcoming), active otherwise |
| RankingService.SeasonStatusMonotone | frontend/src/services/rankingService.ts:273-281 | as time passes a season only moves from upcoming to active to ended |
| RankingService.SeasonActiveWindow | frontend/src/services/rankingService.ts:273-281 | a season is active exactly from its start to its end, both included |
| RankingService.ValidateRankingData | frontend/src/services/rankingService.ts:302-333 | exactly the failed checks (blank user id, negative points, rank below 1, blank season), in that order; an empty string is skipped rather than blank; valid exactly when none failed |
| RankingService.ValidateSeasonData | frontend/src/services/rankingService.ts:335-372 | exactly the failed checks (blank name, missing start, missing end, end not after start, description over 500 characters), in order; dates that do not parse are not compared; valid exactly when none failed |
| RankingService.SeasonErrorsAtMostFour | frontend/src/services/rankingService.ts:335-372 | at most four errors |
| GameService.DifficultyColor | frontend/src/services/gameService.ts:199-206 | the grey default is given exactly for an unknown difficulty |
| GameService.DifficultyLabel | frontend/src/services/gameService.ts:208-215 | "Không xác định" is given exactly for an unknown difficulty |
| GameService.StatusColor | frontend/src/services/gameService.ts:217-225 | the grey default is given exactly for an unknown status |
| GameService.StatusLabel | frontend/src/services/gameService.ts:227-235 | "Không xác định" is given exactly for an unknown status |
| GameService.GameTablesInjective | frontend/src/services/gameService.ts:199-235 | distinct difficulties, and distinct statuses, get distinct labels and colours |
| GameService.DurationText | frontend/src/services/gameService.ts:240-243 | the text starts with a digit or a minus sign |
| GameService.FormatMatchDuration | frontend/src/services/gameService.ts:237-244 | "NaN:NaN" exactly when a time does not parse, otherwise the text of end minus start |
| GameService.TwoDigits | frontend/src/services/gameService.ts:243 | seconds below 100 print as exactly two digits that read back as the same number |
| GameService.MinutesSeconds | frontend/src/services/gameService.ts:240-242 | the seconds are below 60, and minutes and seconds account for the duration to within one second |
| GameService.DurationTextReadsBack | frontend/src/services/gameService.ts:237-244 | for a duration d >= 0 the text is minutes ':' two-digit seconds, and reading it back gives m and s with s < 60 and d within the second m:ss |
| GameService.ValidateGameChallengeData | frontend/src/services/gameService.ts:247-275 | exactly the failed checks (title length, difficulty, negative reward), in order; valid exactly when none failed |
| GameService.GameChallengeErrorsAtMostThree | frontend/src/services/gameService.ts:250-257 | at most three errors, never both title errors |
| GameService.ValidateMatchData | frontend/src/services/gameService.ts:277-296 | exactly the failed checks (missing or empty players, more than 4 players, missing challenge), in order; valid exactly when none failed |
| GameService.MatchAcceptedWindow | frontend/src/services/gameService.ts:277-296 | a match is accepted exactly with 1 to 4 players and a challenge id |
| UserService.DisplayName | frontend/src/services/userService.ts:171-173 | the user name when non-empty, otherwise the prefix of the email before its first '@' (all of it without one) |
| UserService.NonEmptyWords | frontend/src/services/userService.ts:176-177 | the non-empty words, taken from the input |
| UserService.FirstLetters | frontend/src/services/userService.ts:176-177 | one first character per non-empty word, in order |
| UserService.Initials | frontend/src/services/userService.ts:175-178 | at most two characters, the upper-cased first letters of the first two non-empty words, never a space |
| UserService.UserFieldErrorsMeaning | frontend/src/services/userService.ts:188-220 | each field's check pushes exactly its own failed checks, at most one |
| UserService.UserErrorsUpToMeaning | frontend/src/services/userService.ts:185-226 | after k fields the list holds exactly those fields' failed checks, in order |
| UserService.UserErrorsMeaning | frontend/src/services/userService.ts:185-226 | after all five fields, exactly the failed checks, in field order |
| UserService.ValidateUserData | frontend/src/services/userService.ts:185-226 | exactly the failed checks (name length, strict email, password length, gender, role), in field order; valid exactly when none failed |
| UserService.UserErrorsAtMostFive | frontend/src/services/userService.ts:222-225 | at most five errors |
| AuthService.HandleOAuthCallback | frontend/src/services/authService.ts:35-41 | success exactly for a non-empty token, which is passed back; failure carries "" |
| AuthService.ValidatePassword | frontend/src/services/authService.ts:123-146 | exactly the failed checks (length, lower case, upper case, digit), in that order; valid exactly when none failed |
| AuthService.PasswordAcceptedIff | frontend/src/services/authService.ts:123-146 | a password passes exactly with 6 or more characters including a lower-case letter, an upper-case letter and a digit |
| AuthService.ValidateUserName | frontend/src/services/authService.ts:148-167 | exactly the failed checks (too short, too long, a character outside [A-Za-z0-9_]), in that order; valid exactly when none failed |
| AuthService.UserNameErrorsAtMostTwo | frontend/src/services/authService.ts:148-167 | at most two errors, since the length errors exclude each other |
| AuthService.EmptyUserNameErrors | frontend/src/services/authService.ts:151-161 | the empty name gets the too-short error and the character error, in that order |
| AuthService.UserNameAcceptedIff | frontend/src/services/authService.ts:148-167 | a name passes exactly with 3 to 30 characters, all letters, digits or '_' |
| EmailPatterns.StrictEmailIfDotAfterAt | frontend/src/services/authService.ts:118-121 | no whitespace, a single '@' with text before it, and a '.' inside the text after it give a match |
| EmailPatterns.DotAfterAtIfStrictEmail | frontend/src/services/authService.ts:118-121 | a match has its '@' after the first character and a '.' with text on both sides after it |
| EmailPatterns.StrictEmailByFirstAt | frontend/src/services/authService.ts:118-121 | for a string without whitespace, a match is decided at its first '@' |
| EmailPatterns.MatchesStrictEmail | frontend/src/services/authService.ts:118-121 | `validateEmail` is true exactly for strings matching the anchored pattern |
| EmailPatterns.TestStrictEmail | frontend/src/services/userService.ts:197-202 | the anchored pattern's test, as the user validator runs it |
| EmailPatterns.TestLooseEmail | frontend/src/pages/auth/RegisterPage.tsx:56-60 | a one-pass scan (current run of non-spaces, first usable '@' in it, a closing '.') returns true exactly when the unanchored pattern matches somewhere |
| EmailPatterns.MatchEndingAt | frontend/src/pages/auth/RegisterPage.tsx:56-60 | every match whose '.' is at the scan position passes the scan's test there |
| EmailPatterns.MatchInRun | frontend/src/pages/auth/RegisterPage.tsx:56-60 | a match lies inside one run of non-whitespace characters |
| EmailPatterns.StrictIsLoose | frontend/src/pages/auth/LoginPage.tsx:27-31 | every address the services accept is accepted by the forms |
| EmailPatterns.LooseAcceptsMore | frontend/src/pages/auth/LoginPage.tsx:27-31 | "a b@c.d" passes the forms' pattern but not the services' |
| SubjectService.ValidateLessonNumber | frontend/src/services/subjectService.ts:130-132 | a number is free exactly when no existing lesson has it, so every number is free for an empty list |
| SubjectService.LessonNumbers | frontend/src/services/subjectService.ts:137 | the lesson numbers, in list order |
| SubjectService.MaxSpread | frontend/src/services/subjectService.ts:137 | `Math.max` of no numbers is negative infinity; otherwise it is the largest of them |
| SubjectService.NextLessonNumberAsWritten | frontend/src/services/subjectService.ts:134-144 | negative infinity exactly for a successful response with an empty list; any finite result is free and one more than the largest existing number (some lesson has that number minus one, none reaches it); 1 for a failed or rejected request |
| SubjectService.EmptySubjectNextNumberIsNegInfinity | frontend/src/services/subjectService.ts:136-138 | a subject without lessons gets negative infinity |
| SubjectService.NextLessonNumber | frontend/src/services/subjectService.ts:134-144 | the next number is free and exactly one more than the largest existing number (some lesson has n - 1, none has n or more); 1 when there are none; equal to the code's value whenever that is finite |
| SubjectService.MaxSpreadPlusOne | frontend/src/services/subjectService.ts:137-138 | `Math.max(...numbers) + 1` over a non-empty list is finite and one more than the largest lesson number |
| SubjectService.MaxPlusOneUnique | frontend/src/services/subjectService.ts:137-138 | "one more than the largest number" determines the number: two such values are equal |
| SubjectService.NextLessonNumberAdvances | frontend/src/services/subjectService.ts:134-144 | after a lesson is added under the suggested number, the next suggestion is one higher |
| ItemsPage.ApiBase | frontend/src/pages/admin/items/ItemsPage.tsx:25 | the API base is never empty: the configured URL when one is set, otherwise "http://localhost:5000/api" |
| ItemsPage.ApiOrigin | frontend/src/pages/admin/items/ItemsPage.tsx:25-26 | the origin is a prefix of the API base that differs from it by a trailing "/api", a trailing "/api/" or nothing |
| ItemsPage.StripApiSuffix | frontend/src/pages/admin/items/ItemsPage.tsx:26 | one trailing "/api" or "/api/" is removed; any other string is kept |
| ItemsPage.DefaultApiOrigin | frontend/src/pages/admin/items/ItemsPage.tsx:25-26 | without a configured URL the origin is "http://localhost:5000" |
| ItemsPage.StripApiSuffixOnce | frontend/src/pages/admin/items/ItemsPage.tsx:26 | only one "/api" is removed |
| ItemsPage.StartsWithIgnoreCaseUpper | frontend/src/pages/admin/items/ItemsPage.tsx:30 | a case-insensitive prefix test is a prefix test on the upper-cased strings |
| ItemsPage.MatchesHttpScheme | frontend/src/pages/admin/items/ItemsPage.tsx:30 | `/^https?:\/\//i` matches exactly the paths that start with http:// or https:// in any case |
| ItemsPage.IsValidImagePath | frontend/src/pages/admin/items/ItemsPage.tsx:27-31 | false for "" and for any '<' or '>'; otherwise true exactly for an http(s) scheme, "/uploads/" or "uploads/" |
| ItemsPage.DecodeOrKeep | frontend/src/pages/admin/items/ItemsPage.tsx:35 | the decoded path when `decodeURIComponent` succeeds; the path unchanged when it throws on a malformed URI |
| ItemsPage.UploadName | frontend/src/pages/admin/items/ItemsPage.tsx:40 | the file part after either upload prefix |
| ItemsPage.UploadUrl | frontend/src/pages/admin/items/ItemsPage.tsx:40-41 | an upload path becomes the origin, "/uploads/" and its file part |
| ItemsPage.ResolveImageUrl | frontend/src/pages/admin/items/ItemsPage.tsx:33-42 | "" for an empty or invalid path; an http(s) path unchanged; an upload path under the origin's "/uploads/" |
| ItemsPage.UploadPathResolves | frontend/src/pages/admin/items/ItemsPage.tsx:33-42 | an upload path that decoding leaves alone resolves to the origin's "/uploads/" and its name |
| ItemsPage.UploadSpellingsAgree | frontend/src/pages/admin/items/ItemsPage.tsx:40-41 | "uploads/x" and "/uploads/x" resolve alike, although the item validator rejects the first and accepts the second |
| ItemsPage.ResolvedUrlSafe | frontend/src/pages/admin/items/ItemsPage.tsx:33-42 | the URL has no angle brackets and is "", an http(s) URL or under the origin's "/uploads/" |
| ItemsPage.ServerPathNotShown | frontend/src/pages/admin/items/ItemsPage.tsx:27-42 | a root path outside /uploads/ passes the item validator but the page shows no image for it |
| ItemsPage.ItemMessagesSingleLine | frontend/src/pages/admin/items/ItemsPage.tsx:142 | no item error message contains a line break |
| ItemsPage.FormError | frontend/src/pages/admin/items/ItemsPage.tsx:142 | for a non-empty error list, splitting the shown text at line breaks gives one line per error, each that error's message, in order |
| ItemsPage.FormErrorLines | frontend/src/pages/admin/items/ItemsPage.tsx:142 | the lines of the shown form error are exactly the messages of the failed checks |
| ItemsPage.FormErrorDetermined | frontend/src/pages/admin/items/ItemsPage.tsx:139-142 | two lists of the failed checks in check order give the same message, so its lines, their order and their number are fixed |
| ItemsPage.OnSubmit | frontend/src/pages/admin/items/ItemsPage.tsx:133-171 | blocked exactly when a check fails, showing the failed checks' messages joined by line breaks in check order; otherwise an update for the edited id or a create, carrying the form's fields |
| RegisterPage.FieldErrorMeaning | frontend/src/pages/auth/RegisterPage.tsx:50-76 | each field gets the first of its checks that fails, and no other |
| RegisterPage.ErrorsUpToMeaning | frontend/src/pages/auth/RegisterPage.tsx:47-79 | after k fields the record holds exactly those fields' first failed checks |
| RegisterPage.CheckedAllFields | frontend/src/pages/auth/RegisterPage.tsx:47-79 | after all five fields the record holds, under each field, exactly its failed check |
| RegisterPage.CheckFields | frontend/src/pages/auth/RegisterPage.tsx:47-77 | the record `validateForm` builds holds exactly the failed checks, keyed by field |
| RegisterPage.RegisterForm.constructor | frontend/src/pages/auth/RegisterPage.tsx:16-25 | the form starts empty, gender "male", role "student", with no errors |
| RegisterPage.RegisterForm.ValidateForm | frontend/src/pages/auth/RegisterPage.tsx:47-79 | the displayed errors are the failed checks; valid exactly when there are none |
| RegisterPage.RegisterForm.HandleSubmit | frontend/src/pages/auth/RegisterPage.tsx:81-92 | the error record is left holding each field's failed check; a request is sent exactly when no check fails, and carries the form without `confirmPassword` |
| RegisterPage.RegisterAcceptedIff | frontend/src/pages/auth/RegisterPage.tsx:47-79 | the form passes exactly with a name of 3 or more characters, an email matching the loose pattern, a 6-character password, a matching confirmation and an address |
| RegisterPage.InitialFormErrors | frontend/src/pages/auth/RegisterPage.tsx:16-79 | submitting the initial form shows the five "required" errors |
| RegisterPage.FormPasswordRuleWeaker | frontend/src/pages/auth/RegisterPage.tsx:62-66 | a 6-character lower-case password passes the form but fails the service's upper-case and digit rules |
| LoginPage.CheckFields | frontend/src/pages/auth/LoginPage.tsx:24-38 | the record `validateForm` builds holds exactly the failed checks, keyed by field |
| LoginPage.LoginForm.constructor | frontend/src/pages/auth/LoginPage.tsx:10-14 | the form starts empty with no errors |
| LoginPage.LoginForm.ValidateForm | frontend/src/pages/auth/LoginPage.tsx:24-41 | the displayed errors are the failed checks; valid exactly when there are none |
| LoginPage.LoginForm.HandleSubmit | frontend/src/pages/auth/LoginPage.tsx:43-54 | the error record is left holding each field's failed check; sign-in is attempted exactly when no check fails, with the form's data |
| LoginPage.LoginAcceptedIff | frontend/src/pages/auth/LoginPage.tsx:24-41 | the form passes exactly with an email matching the loose pattern and a 6-character password |
| LoginPage.RegisteredCanSignIn | frontend/src/pages/auth/LoginPage.tsx:24-41 | the email and password of any form the sign-up page accepts pass the sign-in checks |
| Js.Rem360 | frontend/src/components/working-lucky-wheel.tsx:90 | JavaScript's `x % 360` on numbers keeps the sign of x, stays within one turn of 0, and is a whole number of turns from x |
| Js.IntRem | frontend/src/components/working-lucky-wheel.tsx:131 | JavaScript's `%` on integers agrees with the mathematical remainder for a non-negative dividend and lies in (-n, 0] for a negative one |
| Js.TrimStart | frontend/src/services/houseDecorService.ts:95 | the leading whitespace removed by `trim` is all whitespace, and what is left starts with a non-whitespace character |
| Js.TrimEnd | frontend/src/services/houseDecorService.ts:95 | the trailing whitespace removed by `trim` is all whitespace, and what is left ends with a non-whitespace character |
| Js.Split | frontend/src/services/userService.ts:172 | `split` gives at least one piece and no piece contains the separator |
| Js.NatToString | frontend/src/services/rankingService.ts:209 | the decimal form of a natural is all digits with no leading zero, one digit exactly below 10 |
| Js.PadStart | frontend/src/services/gameService.ts:243 | `padStart` keeps the string at the end and fills up to the width with the pad character |
| Js.ToUpper | frontend/src/services/userService.ts:177 | upper-casing keeps the length and maps each character on its own |
| Js.Trim | frontend/src/services/houseDecorService.ts:95 | `trim` keeps a piece of the string that neither starts nor ends with whitespace, and what it cuts on either side is all whitespace |
| Js.IsWhitespace | frontend/src/services/houseDecorService.ts:95 | no character `trim` treats as whitespace is an ASCII letter, a digit, "@", ".", "_" or "-" |
| Js.TrimEmptyIff | frontend/src/services/houseDecorService.ts:95-101 | `!s.trim()` holds exactly for strings made only of whitespace |
| Js.IsBlank | frontend/src/services/rankingService.ts:305-309 | the blank test the validators run is true exactly for all-whitespace strings |
| Js.SplitJoin | frontend/src/pages/admin/items/ItemsPage.tsx:142 | joining pieces without the separator and splitting again gives the pieces back |
| Js.Join | frontend/src/pages/admin/items/ItemsPage.tsx:142 | a joined string starts with the first piece (its round trips with `split` are Js.SplitJoin and Js.JoinSplit) |
| Js.JoinSplit | frontend/src/services/userService.ts:176-177 | splitting and joining again gives the string back |
| Js.SplitHead | frontend/src/services/userService.ts:172 | the first piece of a split is the prefix before the first separator |
| Js.IntToString | frontend/src/services/rankingService.ts:209 | the decimal form of an integer is never empty and starts with "-" exactly for negatives, followed by the digits of its magnitude |
| Js.IntToStringInjective | frontend/src/services/rankingService.ts:209 | different integers print differently |
| Js.ParseNatToString | frontend/src/services/gameService.ts:243 | the decimal form of a natural reads back as itself |

## Left out

- The HTTP layer: axios, interceptors, token storage, error classification, every async CRUD or
  query method and query-string building. It is network I/O through a foreign library.
- Whatever happens after a request is sent. This covers the response handling after
  `ItemsPage.OnSubmit`, `RegisterPage.RegisterForm.HandleSubmit` and
  `LoginPage.LoginForm.HandleSubmit`, and the toasts, redirects and list refreshes. It depends on
  the network.
- `handleInputChange` on the sign-up and sign-in forms (clearing a field's error as the user types).
  It is a UI event handler with no decision in it.
- `decodeURIComponent` is a parameter of `ItemsPage.ResolveImageUrl` (a function that may fail),
  because its percent-decoding is a library routine.
- Date parsing and the clock (`new Date()`, `Date.parse`, `toISOString`) are injected. Season
  status gets integer timestamps. Season validation gets a parsing function. Match duration gets
  parsed times, with `None` for an invalid date. Daily spins get pre-extracted day keys.
- `Intl.NumberFormat` (`formatPrice`, `formatPoints`) and `formatUserStats` are left out. They are
  locale formatting done by a library.
- `Math.random()` is the `randomFraction` parameter of `WorkingLuckyWheel.Wheel.Spin`.
- Timers, React state updates, rendering, CSS transforms and the SVG label trigonometry are left
  out. The 3000 ms timer is modelled only as the separate `Settle` step.
- The quota, spin history, server-side weighted draw and remaining-spin endpoints. The client only
  calls endpoints for these; the logic runs on the server.
- The analytics helpers of the trade, certificate and house-decoration services. They are grouping
  embedded in async fetches.
- `getRankLabel`, `getSeasonStatusColor` and `getSeasonStatusLabel` are not part of this model.
- `validateHouseDecorationData` in itemService.ts has a branch for an `itemId` that is not an
  array. The model types `itemId` as an optional list, so that branch cannot arise.
- Floating point: angles, prices and probabilities are exact reals. IEEE rounding at slot
  boundaries and in the 0.01 tolerance is not modelled.
- Strings are sequences of code points. JavaScript counts UTF-16 code units, so `length` differs
  for characters outside the Basic Multilingual Plane.
- `Js.ToUpper`: upper-cases ASCII letters only. JavaScript's full Unicode case mapping is not
  modelled. User names are not restricted to ASCII, so non-ASCII initials are not upper-cased:
  "đức anh" gives "ĐA" in JavaScript and "đa" in the model.
- `GameService.DurationText`: states only the shape of the text for negative durations. For d >= 0,
  `GameService.DurationTextReadsBack` gives the full reading.
- `LuckyWheelService.SortByDate`: `localeCompare` is modelled as plain code-point order. The two
  agree on ISO day keys, which are all digits and '-'.
- `RegisterPage.FormPasswordRuleWeaker`: the sign-up form checks only length, while
  `AuthService.ValidatePassword` also demands a lower-case letter, an upper-case letter and a digit.
  The lemma records the gap rather than a bug, since the form never calls the service rule.

## Findings

| source | as written | input that shows it | evidently intended | confidence | as-written member | corrected member |
|---|---|---|---|---|---|---|
| frontend/src/components/working-lucky-wheel.tsx:131 | the forward formula aims the pointer at the centre of the target slot, while the backward one adds half a slot before flooring; the two disagree by half a slot, so a spin aimed at slot i reports slot (i + 1) mod N | 4 slots, top pointer, offset 0, rotation 0, target 2: the wheel stops at 2025 degrees and slot 3 is reported | report the slot the spin was aimed at (the comments at lines 75 and 86); the formulas must agree, e.g. backward `Math.floor(angleFromPointer / segmentAngle) % N` | high (proved; not executed) | WorkingLuckyWheel.RoundTripAsWritten | WorkingLuckyWheel.RoundTrip |
| frontend/src/services/subjectService.ts:137-138 | `Math.max(...[])` is `-Infinity`, so a subject whose lesson list is empty gets `-Infinity` as its next lesson number | a successful response with `data.lessons = []` | 1, as for a subject whose list is missing | high (proved; not executed) | SubjectService.NextLessonNumberAsWritten | SubjectService.NextLessonNumber |

`WorkingLuckyWheel.Wheel.Settle` follows the code, so `WorkingLuckyWheel.SpinToTarget` reports
the segment after the one the server chose. `WorkingLuckyWheel.AsWrittenFourSlots` checks the first
finding on the concrete input. Which of the two formulas should change depends on
`pointerOffsetDeg`, because the arrow is always drawn at the top:
- with an aim of 0 degrees, the backward formula without the extra half slot reads the painted slot
  (`WorkingLuckyWheel.SlotUnderPointerPaintedWhenAimZero`);
- on the prize page (aim 350 degrees), line 131 as written reads the painted slot
  (`LuckyWheelPage.PageWheelBehaves`), and it is the forward formula that stops the arrow on the
  edge between slots i and i + 1 (`LuckyWheelPage.PageTargetStopsOnEdge`).

The page never makes a targeted spin, so what it shows is right. `WorkingLuckyWheel.RoundTrip` proves
the intended inverse for the backward side; correcting the forward side instead is not modelled. `SubjectService.EmptySubjectNextNumberIsNegInfinity` checks the
second.

There are also two design inconsistencies that are not bugs in one function.
- The item validator (itemService.ts:281-285) accepts any image starting with "/", and rejects
  "uploads/...". The items page (ItemsPage.tsx:27-31) shows only http(s) and upload paths, and
  accepts "uploads/...". `ItemsPage.ServerPathNotShown` and `ItemsPage.UploadSpellingsAgree` state
  both directions.
- The sign-up form's password rule is weaker than the service's. See
  `RegisterPage.FormPasswordRuleWeaker`.
