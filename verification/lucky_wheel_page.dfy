/**
  The lucky-wheel page (LuckyWheelPage.tsx): the prize legend, its de-duplication by text,
  and the way the page configures the wheel.
*/
module LuckyWheelPage {
  import opened Js
  import opened WorkingLuckyWheel

  /** The page's legend: the same 18 segments the wheel shows by default. */
  function Legend(): (s: seq<Segment>)
    ensures |s| == 18
  {
    DefaultSegments()
  }

  /** The texts of the segments in s. */
  function Texts(s: seq<Segment>): set<string> {
    if s == [] then {} else Texts(s[..|s| - 1]) + {s[|s| - 1].text}
  }

  /** A text is in Texts(s) exactly when some segment of s carries it. */
  lemma {:induction false} TextsMembers(s: seq<Segment>)
    ensures forall k :: 0 <= k < |s| ==> s[k].text in Texts(s)
    ensures forall x :: x in Texts(s) ==> exists k :: 0 <= k < |s| && s[k].text == x
  {
    if s != [] {
      var init := s[..|s| - 1];
      TextsMembers(init);
      assert forall k :: 0 <= k < |init| ==> init[k] == s[k];
    }
  }

  /**
    Keeps each segment whose text has not been seen earlier in the list: the value the
    `uniqueSegments` loop builds, one segment at a time.
  */
  function KeepFirst(s: seq<Segment>): seq<Segment> {
    if s == [] then []
    else
      var init := s[..|s| - 1];
      var last := s[|s| - 1];
      if last.text in Texts(init) then KeepFirst(init) else KeepFirst(init) + [last]
  }

  /** `uniqueSegments` (lines 49-59): a `Set` of seen texts and a `result` array. */
  method UniqueSegments(segments: seq<Segment>) returns (result: seq<Segment>)
    ensures result == KeepFirst(segments)
  {
    var seen: set<string> := {};
    result := [];
    for i := 0 to |segments|
      invariant seen == Texts(segments[..i])
      invariant result == KeepFirst(segments[..i])
    {
      var s := segments[i];
      assert segments[..i + 1][..i] == segments[..i];
      if s.text !in seen {
        seen := seen + {s.text};
        result := result + [s];
      }
    }
    assert segments[..|segments|] == segments;
  }

  predicate DistinctTexts(s: seq<Segment>) {
    forall i, j :: 0 <= i < j < |s| ==> s[i].text != s[j].text
  }

  /** No two kept segments share a text, and every text of the input is kept. */
  lemma {:induction false} KeepFirstDistinctAndComplete(s: seq<Segment>)
    ensures DistinctTexts(KeepFirst(s))
    ensures Texts(KeepFirst(s)) == Texts(s)
    ensures |KeepFirst(s)| <= |s|
  {
    if s != [] {
      var init := s[..|s| - 1];
      var last := s[|s| - 1];
      KeepFirstDistinctAndComplete(init);
      if last.text !in Texts(init) {
        TextsMembers(KeepFirst(init));
        var r := KeepFirst(init);
        assert (r + [last])[..|r|] == r;
        forall i, j | 0 <= i < j < |r| + 1 ensures (r + [last])[i].text != (r + [last])[j].text {
          if j == |r| { assert r[i].text in Texts(r); }
        }
      }
    }
  }

  /**
    The kept segments are a subsequence of the input: `idx` gives, for each kept segment, the
    strictly increasing position it was taken from, and that position is the first one
    holding its text.
  */
  function FirstIndices(s: seq<Segment>): (idx: seq<nat>)
    ensures |idx| == |KeepFirst(s)|
    ensures forall k :: 0 <= k < |idx| ==> idx[k] < |s| && KeepFirst(s)[k] == s[idx[k]]
    ensures forall k, l :: 0 <= k < l < |idx| ==> idx[k] < idx[l]
    ensures forall k, q :: 0 <= k < |idx| && 0 <= q < idx[k] ==> s[q].text != s[idx[k]].text
  {
    if s == [] then []
    else
      var init := s[..|s| - 1];
      var last := s[|s| - 1];
      var idx := FirstIndices(init);
      TextsMembers(init);
      assert forall q :: 0 <= q < |init| ==> init[q] == s[q];
      if last.text in Texts(init) then idx
      else
        forall q | 0 <= q < |s| - 1 ensures s[q].text != last.text {
          assert init[q].text in Texts(init);
        }
        idx + [|s| - 1]
  }

  /** A list whose texts are already distinct is left as it is. */
  lemma {:induction false} KeepFirstOfDistinct(s: seq<Segment>)
    requires DistinctTexts(s)
    ensures KeepFirst(s) == s
  {
    if s != [] {
      var init := s[..|s| - 1];
      var last := s[|s| - 1];
      assert DistinctTexts(init) by {
        forall i, j | 0 <= i < j < |init| ensures init[i].text != init[j].text {
          assert init[i] == s[i] && init[j] == s[j];
        }
      }
      KeepFirstOfDistinct(init);
      TextsMembers(init);
      forall k | 0 <= k < |init| ensures init[k].text != last.text {
        assert init[k] == s[k];
      }
      assert last.text !in Texts(init);
    }
  }

  /** De-duplicating twice is the same as once. */
  lemma KeepFirstIdempotent(s: seq<Segment>)
    ensures KeepFirst(KeepFirst(s)) == KeepFirst(s)
  {
    KeepFirstDistinctAndComplete(s);
    KeepFirstOfDistinct(KeepFirst(s));
  }

  /** One step of the de-duplication over a prefix: a new text is kept. */
  lemma StepKeep(s: seq<Segment>, k: nat, seen: set<string>, n: nat)
    requires k < |s| && Texts(s[..k]) == seen && |KeepFirst(s[..k])| == n
    requires s[k].text !in seen
    ensures Texts(s[..k + 1]) == seen + {s[k].text} && |KeepFirst(s[..k + 1])| == n + 1
  {
    assert s[..k + 1][..k] == s[..k];
  }

  /** One step of the de-duplication over a prefix: a repeated text is skipped. */
  lemma StepSkip(s: seq<Segment>, k: nat, seen: set<string>, n: nat)
    requires k < |s| && Texts(s[..k]) == seen && |KeepFirst(s[..k])| == n
    requires s[k].text in seen
    ensures Texts(s[..k + 1]) == seen && |KeepFirst(s[..k + 1])| == n
  {
    assert s[..k + 1][..k] == s[..k];
  }

  /** The legend de-duplicated three entries at a time. */
  lemma LegendUpTo3()
    ensures Texts(Legend()[..3]) == {"1.000 VND", "2.000 VND", "5.000 VND"}
    ensures |KeepFirst(Legend()[..3])| == 3
  {
    var s := Legend();
    assert s[..0] == [];
    assert s[0].text == "1.000 VND";
    StepKeep(s, 0, {}, 0);
    assert s[1].text == "2.000 VND";
    StepKeep(s, 1, {"1.000 VND"}, 1);
    assert s[2].text == "5.000 VND";
    StepKeep(s, 2, {"1.000 VND", "2.000 VND"}, 2);
  }

  lemma LegendUpTo6()
    ensures Texts(Legend()[..6]) == {"1.000 VND", "2.000 VND", "5.000 VND", "10.000 VND", "20.000 VND", "50.000 VND"}
    ensures |KeepFirst(Legend()[..6])| == 6
  {
    var s := Legend();
    LegendUpTo3();
    assert s[3].text == "10.000 VND";
    StepKeep(s, 3, {"1.000 VND", "2.000 VND", "5.000 VND"}, 3);
    assert s[4].text == "20.000 VND";
    StepKeep(s, 4, {"1.000 VND", "2.000 VND", "5.000 VND", "10.000 VND"}, 4);
    assert s[5].text == "50.000 VND";
    StepKeep(s, 5, {"1.000 VND", "2.000 VND", "5.000 VND", "10.000 VND", "20.000 VND"}, 5);
  }

  lemma LegendUpTo9()
    ensures Texts(Legend()[..9]) == {"1.000 VND", "2.000 VND", "5.000 VND", "10.000 VND", "20.000 VND", "50.000 VND", "THÊM LƯỢT", "x1 mảnh quần áo"}
    ensures |KeepFirst(Legend()[..9])| == 8
  {
    var s := Legend();
    LegendUpTo6();
    assert s[6].text == "THÊM LƯỢT";
    StepKeep(s, 6, {"1.000 VND", "2.000 VND", "5.000 VND", "10.000 VND", "20.000 VND", "50.000 VND"}, 6);
    assert s[7].text == "x1 mảnh quần áo";
    StepKeep(s, 7, {"1.000 VND", "2.000 VND", "5.000 VND", "10.000 VND", "20.000 VND", "50.000 VND", "THÊM LƯỢT"}, 7);
    assert s[8].text == "x1 mảnh quần áo";
    StepSkip(s, 8, {"1.000 VND", "2.000 VND", "5.000 VND", "10.000 VND", "20.000 VND", "50.000 VND", "THÊM LƯỢT", "x1 mảnh quần áo"}, 8);
  }

  lemma LegendUpTo12()
    ensures Texts(Legend()[..12]) == {"1.000 VND", "2.000 VND", "5.000 VND", "10.000 VND", "20.000 VND", "50.000 VND", "THÊM LƯỢT", "x1 mảnh quần áo", "x1 mảnh túi xách", "x1 mảnh dây chuyền"}
    ensures |KeepFirst(Legend()[..12])| == 10
  {
    var s := Legend();
    LegendUpTo9();
    assert s[9].text == "x1 mảnh túi xách";
    StepKeep(s, 9, {"1.000 VND", "2.000 VND", "5.000 VND", "10.000 VND", "20.000 VND", "50.000 VND", "THÊM LƯỢT", "x1 mảnh quần áo"}, 8);
    assert s[10].text == "x1 mảnh túi xách";
    StepSkip(s, 10, {"1.000 VND", "2.000 VND", "5.000 VND", "10.000 VND", "20.000 VND", "50.000 VND", "THÊM LƯỢT", "x1 mảnh quần áo", "x1 mảnh túi xách"}, 9);
    assert s[11].text == "x1 mảnh dây chuyền";
    StepKeep(s, 11, {"1.000 VND", "2.000 VND", "5.000 VND", "10.000 VND", "20.000 VND", "50.000 VND", "THÊM LƯỢT", "x1 mảnh quần áo", "x1 mảnh túi xách"}, 9);
  }

  lemma LegendUpTo15()
    ensures Texts(Legend()[..15]) == {"1.000 VND", "2.000 VND", "5.000 VND", "10.000 VND", "20.000 VND", "50.000 VND", "THÊM LƯỢT", "x1 mảnh quần áo", "x1 mảnh túi xách", "x1 mảnh dây chuyền", "x1 mảnh vòng tay"}
    ensures |KeepFirst(Legend()[..15])| == 11
  {
    var s := Legend();
    LegendUpTo12();
    assert s[12].text == "x1 mảnh dây chuyền";
    StepSkip(s, 12, {"1.000 VND", "2.000 VND", "5.000 VND", "10.000 VND", "20.000 VND", "50.000 VND", "THÊM LƯỢT", "x1 mảnh quần áo", "x1 mảnh túi xách", "x1 mảnh dây chuyền"}, 10);
    assert s[13].text == "x1 mảnh vòng tay";
    StepKeep(s, 13, {"1.000 VND", "2.000 VND", "5.000 VND", "10.000 VND", "20.000 VND", "50.000 VND", "THÊM LƯỢT", "x1 mảnh quần áo", "x1 mảnh túi xách", "x1 mảnh dây chuyền"}, 10);
    assert s[14].text == "x1 mảnh vòng tay";
    StepSkip(s, 14, {"1.000 VND", "2.000 VND", "5.000 VND", "10.000 VND", "20.000 VND", "50.000 VND", "THÊM LƯỢT", "x1 mảnh quần áo", "x1 mảnh túi xách", "x1 mảnh dây chuyền", "x1 mảnh vòng tay"}, 11);
  }

  lemma LegendUpTo18()
    ensures Texts(Legend()[..18]) == {"1.000 VND", "2.000 VND", "5.000 VND", "10.000 VND", "20.000 VND", "50.000 VND", "THÊM LƯỢT", "x1 mảnh quần áo", "x1 mảnh túi xách", "x1 mảnh dây chuyền", "x1 mảnh vòng tay", "x1 mảnh 100.000 VND", "x1 mảnh 200.000 VND", "x1 mảnh 500.000 VND"}
    ensures |KeepFirst(Legend()[..18])| == 14
  {
    var s := Legend();
    LegendUpTo15();
    assert s[15].text == "x1 mảnh 100.000 VND";
    StepKeep(s, 15, {"1.000 VND", "2.000 VND", "5.000 VND", "10.000 VND", "20.000 VND", "50.000 VND", "THÊM LƯỢT", "x1 mảnh quần áo", "x1 mảnh túi xách", "x1 mảnh dây chuyền", "x1 mảnh vòng tay"}, 11);
    assert s[16].text == "x1 mảnh 200.000 VND";
    StepKeep(s, 16, {"1.000 VND", "2.000 VND", "5.000 VND", "10.000 VND", "20.000 VND", "50.000 VND", "THÊM LƯỢT", "x1 mảnh quần áo", "x1 mảnh túi xách", "x1 mảnh dây chuyền", "x1 mảnh vòng tay", "x1 mảnh 100.000 VND"}, 12);
    assert s[17].text == "x1 mảnh 500.000 VND";
    StepKeep(s, 17, {"1.000 VND", "2.000 VND", "5.000 VND", "10.000 VND", "20.000 VND", "50.000 VND", "THÊM LƯỢT", "x1 mảnh quần áo", "x1 mảnh túi xách", "x1 mảnh dây chuyền", "x1 mảnh vòng tay", "x1 mảnh 100.000 VND", "x1 mảnh 200.000 VND"}, 13);
  }

  /** The 18 legend entries repeat four texts, so the page lists 14 prizes. */
  lemma LegendHas14Prizes()
    ensures |KeepFirst(Legend())| == 14
  {
    LegendUpTo18();
    assert Legend()[..18] == Legend();
  }

  /** The page mounts the wheel with its default segments and pointer and a 260 degree offset. */
  function PageGeometry(): (g: Geometry)
    ensures g.slots == |EffectiveSegments(None)| == 18 && PointerAim(g) == 350.0
    ensures g.pointer == DefaultPointer && g.offsetDeg == 260.0
  {
    Geometry(18, DefaultPointer, 260.0)
  }

  /** On the page the arrow sees the wheel half a slot (10 degrees) past line 131's angle from the pointer. */
  lemma PageSeenFromAim(rotation: real)
    ensures SameTurn(NormalizeAngle(-rotation), ShiftedRem(350.0 - NormalizeAngle(rotation)) + 10.0)
  {
    var f := NormalizeAngle(rotation);
    var afp := ShiftedRem(350.0 - f);
    var seen := NormalizeAngle(-rotation);
    SameTurnOffset(350.0 - f, afp, 10.0);
    assert 350.0 - f + 10.0 == -f + 360.0 * 1 as real;
    SameTurnShift(-f, afp + 10.0, 1);
    SameTurnNeg(rotation, f);
    SameTurnTrans(-rotation, -f, afp + 10.0);
    SameTurnSymm(-rotation, seen);
    SameTurnTrans(seen, -rotation, afp + 10.0);
  }

  /**
    So on the page line 131 reads the segment painted under the arrow: every stop of the wheel
    reports one of the 18 segments, the one the arrow points at.
  */
  lemma PageWheelBehaves(rotation: real)
    ensures 0 <= WinningIndex(PageGeometry(), rotation) < 18
    ensures WinningIndex(PageGeometry(), rotation) == PaintedSlot(18, rotation)
  {
    var g := PageGeometry();
    WinningIndexReading(g, rotation);
    PageSeenFromAim(rotation);
    PageReading(ShiftedRem(PointerAim(g) - NormalizeAngle(rotation)), NormalizeAngle(-rotation), SegmentAngle(18));
  }

  /** An angle from the pointer `afp` read by line 131 with 18 slots gives the slot of `afp + 10`. */
  lemma PageReading(afp: real, seen: real, s: real)
    requires s == 20.0 && 0.0 <= afp < 360.0 && 0.0 <= seen < 360.0
    requires SameTurn(seen, afp + 10.0)
    ensures IntRem(((afp + s / 2.0) / s).Floor, 18) == (seen / s).Floor
  {
    FloorBounds(seen, 20.0);
    var k := (seen / 20.0).Floor;
    if seen >= 10.0 {
      SameTurnOffset(seen, afp + 10.0, -10.0);
      SameTurnUnique(seen - 10.0, afp);
      IntRemSmall(k, 18);
      FloorInRange(seen, 20.0, 0, 18);
    } else {
      SameTurnOffset(seen, afp + 10.0, 350.0);
      assert afp + 10.0 + 350.0 == afp + 360.0 * 1 as real;
      SameTurnSymm(seen + 350.0, afp + 360.0 * 1 as real);
      SameTurnShift(afp, seen + 350.0, 1);
      SameTurnUnique(afp, seen + 350.0);
      FloorDiv(afp + 10.0, 20.0, 18);
      FloorDiv(seen, 20.0, 0);
    }
  }

  /**
    A spin aimed at slot i would stop with the arrow exactly on the edge where slot i + 1 begins
    (slot 0 after the last): on the page it is the forward formula that is half a slot off.
  */
  lemma PageTargetStopsOnEdge(current: real, i: int)
    requires 0 <= i < 18
    ensures NormalizeAngle(-TargetRotation(PageGeometry(), current, i)) == ((i + 1) % 18) as real * 20.0
  {
    AngleFromPointerAtCenter(PageGeometry(), current, i);
    CentreSeenOnEdge(TargetRotation(PageGeometry(), current, i), i);
  }

  /** Whenever line 131 sees the centre of slot i on the page, the arrow is on the edge of slot i + 1. */
  lemma CentreSeenOnEdge(rotation: real, i: int)
    requires 0 <= i < 18
    requires ShiftedRem(PointerAim(PageGeometry()) - NormalizeAngle(rotation)) == SlotCenter(18, i)
    ensures NormalizeAngle(-rotation) == ((i + 1) % 18) as real * 20.0
  {
    var g := PageGeometry();
    PageSeenFromAim(rotation);
    PageEdge(ShiftedRem(PointerAim(g) - NormalizeAngle(rotation)), NormalizeAngle(-rotation), i, SegmentAngle(18));
  }

  /** Line 131's angle from the pointer at the centre of slot i puts the arrow on the edge of slot i + 1. */
  lemma PageEdge(afp: real, seen: real, i: int, s: real)
    requires 0 <= i < 18 && s == 20.0 && afp == i as real * s + s / 2.0
    requires 0.0 <= seen < 360.0 && SameTurn(seen, afp + 10.0)
    ensures seen == ((i + 1) % 18) as real * 20.0
  {
    var edge := (i + 1) as real * 20.0;
    assert afp + 10.0 == edge;
    if i < 17 {
      SameTurnUnique(seen, edge);
      ModSmall(i + 1, 18);
    } else {
      assert edge == 0.0 + 360.0 * 1 as real;
      SameTurnSymm(seen, edge);
      SameTurnShift(0.0, seen, 1);
      SameTurnSymm(0.0, seen);
      SameTurnUnique(seen, 0.0);
      assert i + 1 == 18;
    }
  }

  /**
    A click on the page's wheel and the timer that follows. The page passes no `onSpinRequest`,
    so every spin is the random one: 5 turns plus `Math.random() * 360` degrees, and the
    segment reported is the one painted under the arrow.
  */
  method PageSpin(wheel: Wheel, randomFraction: real) returns (winner: Option<Segment>)
    requires wheel.Valid() && wheel.segments == DefaultSegments() && wheel.geometry == PageGeometry()
    requires !wheel.disabled && !wheel.hasSpinRequest && !wheel.isAnimating
    requires 0.0 <= randomFraction < 1.0
    modifies wheel
    ensures wheel.Valid() && !wheel.isAnimating
    ensures wheel.rotation == old(wheel.rotation) + 1800.0 + randomFraction * 360.0
    ensures winner == Some(DefaultSegments()[WinningIndex(PageGeometry(), wheel.rotation)])
    ensures winner == Some(DefaultSegments()[PaintedSlot(18, wheel.rotation)])
  {
    var started := wheel.Spin(Rejected, randomFraction);
    winner := wheel.Settle();
    PageWheelBehaves(wheel.rotation);
  }
}
