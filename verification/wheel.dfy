/**
  The prize wheel component (working-lucky-wheel.tsx): the geometry that turns a slot index
  into a final rotation (forward) and a final rotation into the slot it reports
  (backward), and the spin state machine of `handleSpin`.

  Angles are exact reals in degrees.
*/
module WorkingLuckyWheel {
  import opened Js

  datatype Segment = Segment(id: string, text: string, color: string, icon: string)

  /** Where the arrow sits around the wheel (12, 3, 6 or 9 o'clock). */
  datatype PointerPosition = Top | Right | Bottom | Left

  /** The wheel's props that the geometry depends on. */
  datatype Geometry = Geometry(slots: nat, pointer: PointerPosition, offsetDeg: real)

  const DefaultPointer: PointerPosition := Top
  /** Whole turns added to every spin before it stops. */
  const FullTurns: int := 5

  /** The 18 built-in segments, used when the caller gives none. */
  function DefaultSegments(): (s: seq<Segment>)
    ensures |s| == 18
  {
    [ Segment("1", "1.000 VND", "#FF4444", "\U{1F4F1}"),
      Segment("2", "2.000 VND", "#CC0000", "\U{1F4DE}"),
      Segment("3", "5.000 VND", "#FF8800", "\U{1F310}"),
      Segment("4", "10.000 VND", "#FFDD00", "\U{2601}\U{FE0F}"),
      Segment("5", "20.000 VND", "#88FF88", "\U{1F4B0}"),
      Segment("6", "50.000 VND", "#4488FF", "\U{1F48E}"),
      Segment("7", "THÊM LƯỢT", "#AA44FF", "\U{1F504}"),
      Segment("8", "x1 mảnh quần áo", "#0044AA", "\U{1F517}"),
      Segment("9", "x1 mảnh quần áo", "#006600", "\U{1F604}"),
      Segment("10", "x1 mảnh túi xách", "#4488FF", "\U{1F340}"),
      Segment("11", "x1 mảnh túi xách", "#AA44FF", "\U{1F4E7}"),
      Segment("12", "x1 mảnh dây chuyền", "#CC8844", "\U{2709}\U{FE0F}"),
      Segment("13", "x1 mảnh dây chuyền", "#FF6B6B", "\U{1F4F2}"),
      Segment("14", "x1 mảnh vòng tay", "#4ECDC4", "\U{1F4F6}"),
      Segment("15", "x1 mảnh vòng tay", "#45B7D1", "\U{1F4B5}"),
      Segment("16", "x1 mảnh 100.000 VND", "#F7DC6F", "\U{1F3C6}"),
      Segment("17", "x1 mảnh 200.000 VND", "#BB8FCE", "\U{1F48C}"),
      Segment("18", "x1 mảnh 500.000 VND", "#85C1E9", "\U{1F381}") ]
  }

  /** The segments the wheel shows: the caller's when it gives a non-empty list, else the defaults. */
  function EffectiveSegments(props: Option<seq<Segment>>): (s: seq<Segment>)
    ensures |s| > 0
    ensures props.Some? && props.value != [] ==> s == props.value
    ensures !(props.Some? && props.value != []) ==> s == DefaultSegments()
  {
    if props.Some? && |props.value| > 0 then props.value else DefaultSegments()
  }

  // ---------------------------------------------------------------------------
  // Geometry
  // ---------------------------------------------------------------------------

  /** The angle the arrow points at before the offset is applied. */
  function PointerBaseAngle(p: PointerPosition): (a: real)
    ensures 0.0 <= a < 360.0 && IsInteger(a / 90.0)
    ensures (a == 90.0 <==> p == Top) && (a == 0.0 <==> p == Right)
    ensures (a == 270.0 <==> p == Bottom) && (a == 180.0 <==> p == Left)
  {
    match p
    case Top => 90.0
    case Right => 0.0
    case Bottom => 270.0
    case Left => 180.0
  }

  /** Base angle plus the fine-tuning offset. */
  function PointerAim(g: Geometry): real {
    PointerBaseAngle(g.pointer) + g.offsetDeg
  }

  lemma DivMul(x: real, m: real)
    requires m > 0.0
    ensures (x / m) * m == x
  {
  }

  lemma MulLeq(a: real, b: real, m: real)
    requires m > 0.0
    requires a * m <= b * m
    ensures a <= b
  {
    assert (b - a) * m >= 0.0;
  }

  lemma MulLt(a: real, b: real, m: real)
    requires m > 0.0
    requires a * m < b * m
    ensures a < b
  {
    assert (b - a) * m > 0.0;
  }

  /** `Math.floor(y / s)` is k exactly when y lies in [k*s, (k+1)*s). */
  lemma FloorDiv(y: real, s: real, k: int)
    requires s > 0.0
    requires (k as real) * s <= y < (k as real + 1.0) * s
    ensures (y / s).Floor == k
  {
    var q := y / s;
    DivMul(y, s);
    MulLeq(k as real, q, s);
    MulLt(q, k as real + 1.0, s);
  }

  /** `360 / segments.length`: the N slots tile the whole circle. */
  function SegmentAngle(n: nat): (s: real)
    requires n > 0
    ensures s > 0.0 && s * n as real == 360.0
  {
    DivMul(360.0, n as real);
    360.0 / n as real
  }

  /** Angle of the middle of slot i, measured from the wheel's zero. */
  function SlotCenter(n: nat, i: int): real
    requires n > 0
  {
    i as real * SegmentAngle(n) + SegmentAngle(n) / 2.0
  }

  /** Slot i spans [i*s, (i+1)*s) and its centre lies strictly inside the circle. */
  lemma SlotCenterInCircle(n: nat, i: int)
    requires n > 0
    ensures 0 <= i < n ==> 0.0 < SlotCenter(n, i) < 360.0
    ensures i as real * SegmentAngle(n) <= SlotCenter(n, i) < (i as real + 1.0) * SegmentAngle(n)
  {
    var s := SegmentAngle(n);
    var c := i as real * s + s / 2.0;
    assert SlotCenter(n, i) == c;
    assert (i as real + 1.0) * s == i as real * s + s;
    if 0 <= i < n {
      MulMono(0.0, i as real, s);
      MulMono(i as real + 1.0, n as real, s);
    }
  }

  lemma MulMono(a: real, b: real, m: real)
    requires m > 0.0 && a <= b
    ensures a * m <= b * m
  {
    assert (b - a) * m >= 0.0;
  }

  /** `Math.floor(y / s)` of a y in [lo*s, hi*s) lies in [lo, hi). */
  lemma FloorInRange(y: real, s: real, lo: int, hi: int)
    requires s > 0.0
    ensures lo as real * s <= y < hi as real * s ==> lo <= (y / s).Floor < hi
  {
    if lo as real * s <= y < hi as real * s {
      DivMul(y, s);
      MulLeq(lo as real, y / s, s);
      MulLt(y / s, hi as real, s);
    }
  }

  /**
    `((x % 360) + 360) % 360`: the representative of x in [0, 360), for every x,
    negative ones included.
  */
  function NormalizeAngle(x: real): (r: real)
    ensures 0.0 <= r < 360.0
    ensures SameTurn(x, r)
  {
    var a := Rem360(x);
    var r := Rem360(a + 360.0);
    SameTurnShift(a, r, 1);
    SameTurnTrans(x, a, r);
    r
  }

  /**
    `(x + 360) % 360`: always a whole number of turns away from x, but a true normalisation
    only when x >= -360; below that it is negative or zero.
  */
  function ShiftedRem(x: real): (r: real)
    ensures SameTurn(x, r)
    ensures x >= -360.0 ==> 0.0 <= r < 360.0
    ensures x < -360.0 ==> -360.0 < r <= 0.0
  {
    var r := Rem360(x + 360.0);
    SameTurnShift(x, r, 1);
    r
  }

  /** The single-remainder form fails to normalise a large negative angle. */
  lemma ShiftedRemBelowMinusTurn()
    ensures ShiftedRem(-400.0) == -40.0 && NormalizeAngle(-400.0) == 320.0
  {
    assert Trunc(-40.0 / 360.0) == 0;
    assert Trunc(-400.0 / 360.0) == -1;
    assert Trunc(320.0 / 360.0) == 0;
  }

  /** On [-360, +inf) the two forms agree. */
  lemma ShiftedRemIsNormalize(x: real)
    requires x >= -360.0
    ensures ShiftedRem(x) == NormalizeAngle(x)
  {
    SameTurnSymm(x, ShiftedRem(x));
    SameTurnTrans(ShiftedRem(x), x, NormalizeAngle(x));
    SameTurnUnique(ShiftedRem(x), NormalizeAngle(x));
  }

  /** `finalWheelAngle` (line 87): the wheel angle, mod 360, that puts slot i's centre under the pointer. */
  function FinalWheelAngle(g: Geometry, i: int): (a: real)
    requires g.slots > 0
    ensures SameTurn(PointerAim(g) - SlotCenter(g.slots, i), a)
    ensures 0 <= i < g.slots && PointerAim(g) >= 0.0 ==> 0.0 <= a < 360.0
  {
    SlotCenterInCircle(g.slots, i);
    ShiftedRem(PointerAim(g) - SlotCenter(g.slots, i))
  }

  /**
    `calculateFinalRotationForTarget` (lines 76-93): the rotation at which the wheel stops so
    that slot i sits under the pointer, always ahead of the current rotation.
  */
  function TargetRotation(g: Geometry, current: real, i: int): (t: real)
    requires g.slots > 0
    ensures t > current
    ensures SameTurn(t, FinalWheelAngle(g, i))
    ensures 0 <= i < g.slots && PointerAim(g) >= 0.0 ==>
      current + (FullTurns * 360) as real <= t < current + ((FullTurns + 1) * 360) as real
  {
    var finalWheelAngle := FinalWheelAngle(g, i);
    var currentMod := NormalizeAngle(current);
    var delta := ShiftedRem(finalWheelAngle - currentMod);
    var t := current + (FullTurns * 360) as real + delta;
    // t = current + delta + 5 turns, current ~ currentMod, delta ~ finalWheelAngle - currentMod
    SameTurnShift(current + delta, t, FullTurns);
    SameTurnSymm(current + delta, t);
    assert SameTurn(current + delta, finalWheelAngle) by {
      SameTurnSymm(current, currentMod);
      SameTurnSymm(finalWheelAngle - currentMod, delta);
      assert (current + delta - finalWheelAngle) / 360.0
        == (current - currentMod) / 360.0 + (delta - (finalWheelAngle - currentMod)) / 360.0;
      var a := (current - currentMod) / 360.0;
      var b := (delta - (finalWheelAngle - currentMod)) / 360.0;
      assert (a + b).Floor == a.Floor + b.Floor;
    }
    SameTurnTrans(t, current + delta, finalWheelAngle);
    t
  }

  /**
    The winning slot as the timer callback computes it (lines 122-131):
    `Math.floor((angleFromPointer + segmentAngle / 2) / segmentAngle) % segments.length`.
  */
  function WinningIndex(g: Geometry, finalRotation: real): (k: int)
    requires g.slots > 0
    ensures PointerAim(g) >= 0.0 ==> 0 <= k < g.slots
  {
    var n := g.slots;
    var s := SegmentAngle(n);
    var finalWheelAngle := NormalizeAngle(finalRotation);
    var angleFromPointer := ShiftedRem(PointerAim(g) - finalWheelAngle);
    var y := angleFromPointer + s / 2.0;
    FloorInRange(y, s, 0, n + 1);
    IntRem((y / s).Floor, n)
  }

  /** Line 131's reading, spelled out. */
  lemma WinningIndexReading(g: Geometry, finalRotation: real)
    requires g.slots > 0
    ensures var s := SegmentAngle(g.slots);
      WinningIndex(g, finalRotation) ==
        IntRem(((ShiftedRem(PointerAim(g) - NormalizeAngle(finalRotation)) + s / 2.0) / s).Floor, g.slots)
  {
  }

  /**
    The backward formula that inverts the forward one (`RoundTrip`):
    `Math.floor(angleFromPointer / segmentAngle) % segments.length`, which counts slot i as the
    arc [i*s, (i+1)*s) of `angleFromPointer`. Whether that arc is the one painted under the arrow
    depends on `pointerOffsetDeg`: it is when the aim is 0 (`SlotUnderPointerPaintedWhenAimZero`),
    and it is not on the prize page, whose aim of 350 makes line 131 the one that reads the paint.
  */
  function SlotUnderPointer(g: Geometry, finalRotation: real): (k: int)
    requires g.slots > 0
    ensures PointerAim(g) >= 0.0 ==> 0 <= k < g.slots
  {
    var n := g.slots;
    var s := SegmentAngle(n);
    var finalWheelAngle := NormalizeAngle(finalRotation);
    var angleFromPointer := ShiftedRem(PointerAim(g) - finalWheelAngle);
    FloorInRange(angleFromPointer, s, 0, n);
    IntRem((angleFromPointer / s).Floor, n)
  }

  /**
    The slot painted under the arrow after the wheel has turned by `rotation`. Slot i is painted
    on [i*s, (i+1)*s), clockwise from 12 o'clock (line 151); the wheel turns clockwise (line 150);
    and the arrow is always drawn at 12 o'clock (line 207), whatever `pointerPosition` says. So
    the arrow sees the point of the wheel at angle `-rotation`, mod 360.
  */
  function PaintedSlot(n: nat, rotation: real): (k: int)
    requires n > 0
    ensures 0 <= k < n
    ensures var s := SegmentAngle(n);
      k as real * s <= NormalizeAngle(-rotation) < (k as real + 1.0) * s
  {
    var s := SegmentAngle(n);
    var seen := NormalizeAngle(-rotation);
    FloorInRange(seen, s, 0, n);
    FloorBounds(seen, s);
    (seen / s).Floor
  }

  /** `Math.floor(y / s) * s <= y < (Math.floor(y / s) + 1) * s`. */
  lemma FloorBounds(y: real, s: real)
    requires s > 0.0
    ensures (y / s).Floor as real * s <= y < ((y / s).Floor as real + 1.0) * s
  {
    var q := y / s;
    DivMul(y, s);
    MulMono(q.Floor as real, q, s);
    var d := q.Floor as real + 1.0 - q;
    assert d * s > 0.0;
    assert (q.Floor as real + 1.0) * s == q * s + d * s;
    assert q * s == y;
    assert y < (q.Floor as real + 1.0) * s;
  }

  /** Angles a whole number of turns apart stay so when both are negated. */
  lemma SameTurnNeg(x: real, y: real)
    requires SameTurn(x, y)
    ensures SameTurn(-x, -y)
  {
    SameTurnSymm(x, y);
    assert (-x - -y) / 360.0 == (y - x) / 360.0;
  }

  /** Angles a whole number of turns apart stay so when both are moved by the same amount. */
  lemma SameTurnOffset(x: real, y: real, d: real)
    requires SameTurn(x, y)
    ensures SameTurn(x + d, y + d)
  {
    assert (x + d - (y + d)) / 360.0 == (x - y) / 360.0;
  }

  /** With the aim at 0 degrees the inverse of the forward formula reads the painted slot. */
  lemma SlotUnderPointerPaintedWhenAimZero(g: Geometry, rotation: real)
    requires g.slots > 0 && PointerAim(g) == 0.0
    ensures SlotUnderPointer(g, rotation) == PaintedSlot(g.slots, rotation)
  {
    var f := NormalizeAngle(rotation);
    var afp := ShiftedRem(PointerAim(g) - f);
    var seen := NormalizeAngle(-rotation);
    assert PointerAim(g) - f == -f;
    SameTurnNeg(rotation, f);
    SameTurnTrans(-rotation, -f, afp);
    SameTurnSymm(-rotation, seen);
    SameTurnTrans(seen, -rotation, afp);
    SameTurnUnique(seen, afp);
    var k := PaintedSlot(g.slots, rotation);
    assert k == (afp / SegmentAngle(g.slots)).Floor;
    IntRemSmall(k, g.slots);
  }

  lemma IntRemSmall(k: int, n: int)
    requires 0 <= k < n
    ensures IntRem(k, n) == k
  {
    ModSmall(k, n);
  }

  lemma ModSmall(k: int, n: int)
    requires 0 <= k < n
    ensures k % n == k
  {
    var q, r := k / n, k % n;
    assert k == q * n + r && 0 <= r < n;
    MulSign(q, n);
  }

  lemma MulSign(q: int, n: int)
    requires n > 0
    ensures q >= 1 ==> q * n >= n
    ensures q <= -1 ==> q * n <= -n
  {
    if q >= 1 {
      assert q * n == (q - 1) * n + n;
    } else if q <= -1 {
      assert q * n == (q + 1) * n - n;
    }
  }

  /** Stopping at the target for slot i leaves the wheel at exactly FinalWheelAngle, mod 360. */
  lemma StopAngle(g: Geometry, current: real, i: int)
    requires g.slots > 0 && 0 <= i < g.slots && PointerAim(g) >= 0.0
    ensures NormalizeAngle(TargetRotation(g, current, i)) == FinalWheelAngle(g, i)
  {
    var t := TargetRotation(g, current, i);
    SameTurnSymm(t, NormalizeAngle(t));
    SameTurnTrans(NormalizeAngle(t), t, FinalWheelAngle(g, i));
    SameTurnUnique(NormalizeAngle(t), FinalWheelAngle(g, i));
  }

  /** Seen from the pointer, the stopped wheel shows exactly the centre of slot i. */
  lemma AngleFromPointerAtCenter(g: Geometry, current: real, i: int)
    requires g.slots > 0 && 0 <= i < g.slots && PointerAim(g) >= 0.0
    ensures ShiftedRem(PointerAim(g) - NormalizeAngle(TargetRotation(g, current, i)))
      == SlotCenter(g.slots, i)
  {
    StopAngle(g, current, i);
    SlotCenterInCircle(g.slots, i);
    var aim := PointerAim(g);
    var c := SlotCenter(g.slots, i);
    var f := FinalWheelAngle(g, i);
    var a := ShiftedRem(aim - f);
    // f ~ aim - c, so aim - f ~ c
    assert SameTurn(c, aim - f) by {
      var q := (aim - c - f) / 360.0;
      assert (c - (aim - f)) / 360.0 == -q;
      assert (-q).Floor == -(q.Floor);
    }
    SameTurnTrans(c, aim - f, a);
    SameTurnUnique(c, a);
  }

  /**
    Round trip of the code as written: the backward formula applied to the forward result for
    slot i reports slot i + 1 (mod N), because the forward formula already aims at the slot's
    centre and the backward one adds another half slot before flooring.
  */
  lemma RoundTripAsWritten(g: Geometry, current: real, i: int)
    requires g.slots > 0 && 0 <= i < g.slots && PointerAim(g) >= 0.0
    ensures WinningIndex(g, TargetRotation(g, current, i)) == (i + 1) % g.slots
  {
    AngleFromPointerAtCenter(g, current, i);
    CentreReadsAsNext(g, TargetRotation(g, current, i), i);
  }

  /** Whenever the pointer sees the centre of slot i, the timer callback reports slot i + 1 (mod N). */
  lemma CentreReadsAsNext(g: Geometry, finalRotation: real, i: int)
    requires g.slots > 0 && 0 <= i < g.slots
    requires ShiftedRem(PointerAim(g) - NormalizeAngle(finalRotation)) == SlotCenter(g.slots, i)
    ensures WinningIndex(g, finalRotation) == (i + 1) % g.slots
  {
    var n := g.slots;
    var s := SegmentAngle(n);
    var y := SlotCenter(n, i) + s / 2.0;
    NextSlotStart(i as real, s);
    FloorDiv(y, s, i + 1);
  }

  /** Half a slot past the centre of slot x is the start of slot x + 1. */
  lemma NextSlotStart(x: real, s: real)
    ensures x * s + s / 2.0 + s / 2.0 == (x + 1.0) * s
  {
  }

  /** So for two or more slots the code as written never reports the slot it aimed at. */
  lemma AsWrittenNeverInverse(g: Geometry, current: real, i: int)
    requires g.slots >= 2 && 0 <= i < g.slots && PointerAim(g) >= 0.0
    ensures WinningIndex(g, TargetRotation(g, current, i)) != i
  {
    RoundTripAsWritten(g, current, i);
  }

  /** Four slots, pointer at the top, no offset, from rest: aiming at slot 2 reports slot 3. */
  lemma AsWrittenFourSlots()
    ensures TargetRotation(Geometry(4, Top, 0.0), 0.0, 2) == 2025.0
    ensures WinningIndex(Geometry(4, Top, 0.0), 2025.0) == 3
  {
    var g := Geometry(4, Top, 0.0);
    assert SegmentAngle(4) == 90.0;
    assert Trunc(225.0 / 360.0) == 0;
    assert Trunc(0.0 / 360.0) == 0;
    assert Trunc(585.0 / 360.0) == 1;
    assert FinalWheelAngle(g, 2) == 225.0;
    assert NormalizeAngle(0.0) == 0.0;
    assert Trunc(2025.0 / 360.0) == 5;
    assert NormalizeAngle(2025.0) == 225.0;
    FloorDiv(270.0, 90.0, 3);
  }

  /** The centre of slot i lies in slot i. */
  lemma SlotOfCenter(n: nat, i: int)
    requires n > 0 && 0 <= i < n
    ensures IntRem((SlotCenter(n, i) / SegmentAngle(n)).Floor, n) == i
  {
    var c, s := SlotCenter(n, i), SegmentAngle(n);
    SlotCenterInCircle(n, i);
    FloorDiv(c, s, i);
    assert (c / s).Floor == i;
    assert i % n == i;
  }

  /** The corrected backward mapping is an exact inverse of the forward one. */
  lemma RoundTrip(g: Geometry, current: real, i: int)
    requires g.slots > 0 && 0 <= i < g.slots && PointerAim(g) >= 0.0
    ensures SlotUnderPointer(g, TargetRotation(g, current, i)) == i
  {
    AngleFromPointerAtCenter(g, current, i);
    SlotOfCenter(g.slots, i);
  }

  // ---------------------------------------------------------------------------
  // Target lookup
  // ---------------------------------------------------------------------------

  /** `segments.findIndex(s => s.id === id)`: the first position holding id, or -1. */
  function FindIndex(segments: seq<Segment>, id: string): (k: int)
    ensures -1 <= k < |segments|
    ensures k == -1 <==> forall j :: 0 <= j < |segments| ==> segments[j].id != id
    ensures k >= 0 ==> segments[k].id == id && forall j :: 0 <= j < k ==> segments[j].id != id
  {
    if segments == [] then -1
    else if segments[0].id == id then 0
    else
      var k := FindIndex(segments[1..], id);
      assert forall j :: 1 <= j < |segments| ==> segments[j] == segments[1..][j - 1];
      if k == -1 then -1 else k + 1
  }

  /** `Math.max(0, findIndex(...))` (line 109): an unknown id falls back to slot 0. */
  function TargetIndex(segments: seq<Segment>, id: string): (k: nat)
    requires |segments| > 0
    ensures k < |segments|
    ensures (exists j :: 0 <= j < |segments| && segments[j].id == id) ==>
      segments[k].id == id && forall j :: 0 <= j < k ==> segments[j].id != id
    ensures (forall j :: 0 <= j < |segments| ==> segments[j].id != id) ==> k == 0
  {
    var k := FindIndex(segments, id);
    if k < 0 then 0 else k
  }

  /** `segments[k]`, which is `undefined` outside the list. */
  function SegmentAt(segments: seq<Segment>, k: int): (r: Option<Segment>)
    ensures r.Some? <==> 0 <= k < |segments|
    ensures r.Some? ==> r.value == segments[k]
  {
    if 0 <= k < |segments| then Some(segments[k]) else None
  }

  // ---------------------------------------------------------------------------
  // The spin state machine (`handleSpin`, lines 95-142)
  // ---------------------------------------------------------------------------

  /** How the awaited `onSpinRequest()` settles. */
  datatype RequestOutcome = Resolved(targetId: string) | Rejected

  class Wheel {
    const segments: seq<Segment>
    const geometry: Geometry
    const disabled: bool
    /** Whether the caller passed `onSpinRequest`. */
    const hasSpinRequest: bool

    var rotation: real
    var isAnimating: bool
    var pendingTargetId: Option<string>
    /** The final rotation captured by the 3000 ms timer, while one is pending. */
    var scheduled: Option<real>

    ghost predicate Valid()
      reads this
    {
      && |segments| > 0
      && geometry.slots == |segments|
      && (scheduled.Some? ==> isAnimating && scheduled.value == rotation)
    }

    constructor (props: Option<seq<Segment>>, pointer: PointerPosition, offsetDeg: real,
                 disabled: bool, hasSpinRequest: bool)
      ensures Valid()
      ensures segments == EffectiveSegments(props)
      ensures geometry == Geometry(|segments|, pointer, offsetDeg)
      ensures this.disabled == disabled && this.hasSpinRequest == hasSpinRequest
      ensures rotation == 0.0 && !isAnimating && pendingTargetId == None && scheduled == None
    {
      segments := EffectiveSegments(props);
      geometry := Geometry(|EffectiveSegments(props)|, pointer, offsetDeg);
      this.disabled := disabled;
      this.hasSpinRequest := hasSpinRequest;
      rotation := 0.0;
      isAnimating := false;
      pendingTargetId := None;
      scheduled := None;
    }

    /**
      A click on the spin button. `reply` is how the server request settles (used when the caller
      passed `onSpinRequest`); `randomFraction` is `Math.random()` (used otherwise).
    */
    method Spin(reply: RequestOutcome, randomFraction: real) returns (started: bool)
      requires Valid()
      requires 0.0 <= randomFraction < 1.0
      modifies this
      ensures Valid()
      ensures started <==> !old(disabled || isAnimating)
      ensures !started ==>
        && rotation == old(rotation) && isAnimating == old(isAnimating)
        && pendingTargetId == old(pendingTargetId) && scheduled == old(scheduled)
      ensures started && hasSpinRequest && reply.Rejected? ==>
        rotation == old(rotation) && !isAnimating && pendingTargetId == None && scheduled == None
      ensures started && hasSpinRequest && reply.Resolved? ==>
        && pendingTargetId == Some(reply.targetId)
        && rotation == TargetRotation(geometry, old(rotation), TargetIndex(segments, reply.targetId))
        && isAnimating && scheduled == Some(rotation)
      ensures started && !hasSpinRequest ==>
        && rotation == old(rotation) + (FullTurns * 360) as real + randomFraction * 360.0
        && pendingTargetId == old(pendingTargetId)
        && isAnimating && scheduled == Some(rotation)
    {
      if disabled || isAnimating {
        return false;
      }
      started := true;
      isAnimating := true;
      var finalRotation := rotation;
      if hasSpinRequest {
        match reply
        case Rejected =>
          isAnimating := false;
          pendingTargetId := None;
          return;
        case Resolved(targetId) =>
          pendingTargetId := Some(targetId);
          var targetIndex := TargetIndex(segments, targetId);
          finalRotation := TargetRotation(geometry, rotation, targetIndex);
      } else {
        var randomAngle := randomFraction * 360.0;
        finalRotation := rotation + (FullTurns * 360) as real + randomAngle;
      }
      rotation := finalRotation;
      scheduled := Some(finalRotation);
    }

    /**
      The timer callback (lines 121-136): the animation ends and the segment at line 131's index
      is reported; an index outside the list (a negative aim) reports `undefined`.
    */
    method Settle() returns (winner: Option<Segment>)
      requires Valid() && scheduled.Some?
      modifies this
      ensures Valid()
      ensures rotation == old(rotation) && !isAnimating && pendingTargetId == None && scheduled == None
      ensures winner == SegmentAt(segments, WinningIndex(geometry, old(rotation)))
      ensures PointerAim(geometry) >= 0.0 ==> winner.Some?
    {
      var finalRotation := scheduled.value;
      isAnimating := false;
      var winningIndex := WinningIndex(geometry, finalRotation);
      winner := SegmentAt(segments, winningIndex);
      pendingTargetId := None;
      scheduled := None;
    }
  }

  /**
    A whole spin driven by the server: a fresh wheel, a click that resolves to `targetId`, then
    the timer. With a forward-facing aim the wheel stops with the target's centre under the aim,
    and the segment reported is the one after it (slot 0 after the last).
  */
  method SpinToTarget(props: Option<seq<Segment>>, pointer: PointerPosition, offsetDeg: real,
                      targetId: string) returns (winner: Option<Segment>)
    requires PointerBaseAngle(pointer) + offsetDeg >= 0.0
    ensures winner.Some?
    ensures var segs := EffectiveSegments(props);
      winner.value == segs[(TargetIndex(segs, targetId) + 1) % |segs|]
  {
    var wheel := new Wheel(props, pointer, offsetDeg, false, true);
    var started := wheel.Spin(Resolved(targetId), 0.0);
    RoundTripAsWritten(wheel.geometry, 0.0, TargetIndex(wheel.segments, targetId));
    winner := wheel.Settle();
  }
}
