/**
 * The gesture logic of the hand-tracking demo: how many fingers a detected
 * hand holds up, decided from its 21 landmarks by strict comparisons, and
 * the label drawn for that number.
 */
module HandGestures {

  import opened Wrappers
  import opened PyStr

  // ---------------------------------------------------------------------
  // Landmarks and the reference count
  // ---------------------------------------------------------------------

  /** One landmark of a detected hand, in normalised image coordinates. */
  datatype Landmark = Landmark(x: real, y: real, z: real)

  /** A detected hand: its landmarks, indexed as the hand tracker numbers them. */
  type Hand = seq<Landmark>

  /** The number of landmarks the hand tracker reports per hand. */
  const LandmarkCount: nat := 21

  /** A landmark id with two landmarks below it on the same hand. */
  type TipId = t: nat | 2 <= t < LandmarkCount witness 4

  /** The landmark ids of the five finger tips: thumb, index, middle, ring, pinky. */
  const TipIds: seq<TipId> := [4, 8, 12, 16, 20]

  /**
   * The thumb is up when its tip lies beyond the joint below it along x:
   * to the left of it for a hand labelled "Right", to the right of it for
   * every other label.
   */
  predicate ThumbUp(hand: Hand, handedness: String): (up: bool)
    requires |hand| >= LandmarkCount
    ensures up ==> hand[4].x != hand[3].x
  {
    if handedness == "Right" then hand[4].x < hand[3].x else hand[4].x > hand[3].x
  }

  /** Any other finger is up when its tip lies above the joint two landmarks below it. */
  predicate FingerUp(hand: Hand, tip: nat): (up: bool)
    requires 2 <= tip < |hand|
    ensures up ==> hand[tip].y != hand[tip - 2].y
  {
    hand[tip].y < hand[tip - 2].y
  }

  /** Which of the five fingers are up, in the order of `TipIds`. */
  function Raised(hand: Hand, handedness: String): (r: seq<bool>)
    requires |hand| >= LandmarkCount
    ensures |r| == |TipIds|
    ensures r[0] == ThumbUp(hand, handedness)
    ensures forall j :: 1 <= j < |r| ==> r[j] == FingerUp(hand, TipIds[j])
  {
    [ThumbUp(hand, handedness), FingerUp(hand, 8), FingerUp(hand, 12), FingerUp(hand, 16), FingerUp(hand, 20)]
  }

  /** The number of true entries. */
  function CountTrue(bs: seq<bool>): (n: nat)
    ensures n <= |bs|
  {
    if bs == [] then 0 else (if bs[0] then 1 else 0) + CountTrue(bs[1..])
  }

  /** The number of fingers up: the reference `count_fingers` is proved against. */
  function FingerCount(hand: Hand, handedness: String): (n: nat)
    requires |hand| >= LandmarkCount
    ensures n <= |TipIds|
  {
    CountTrue(Raised(hand, handedness))
  }

  /** The 0/1 list `count_fingers` builds, one entry per finger. */
  function Bits(bs: seq<bool>): (r: seq<int>)
    ensures |r| == |bs|
  {
    seq(|bs|, k requires 0 <= k < |bs| => if bs[k] then 1 else 0)
  }

  /** Python's `sum` over a list of integers. */
  function Sum(xs: seq<int>): int
  {
    if xs == [] then 0 else xs[0] + Sum(xs[1..])
  }

  // ---------------------------------------------------------------------
  // count_fingers
  // ---------------------------------------------------------------------

  /**
   * `count_fingers`: appends 1 or 0 for the thumb, then for each other
   * finger tip in turn, and returns the sum of the list. The result is the
   * number of fingers up, between 0 and 5.
   */
  method CountFingers(hand: Hand, handedness: String) returns (count: int)
    requires |hand| >= LandmarkCount
    ensures count == FingerCount(hand, handedness)
    ensures 0 <= count <= 5
  {
    var tipIds := TipIds;
    var fingers: seq<int> := [];
    ghost var raised := Raised(hand, handedness);

    if handedness == "Right" {
      if hand[4].x < hand[3].x {
        fingers := fingers + [1];
      } else {
        fingers := fingers + [0];
      }
    } else {
      if hand[4].x > hand[3].x {
        fingers := fingers + [1];
      } else {
        fingers := fingers + [0];
      }
    }
    assert fingers == Bits(raised[..1]);

    for j := 1 to |tipIds|
      invariant fingers == Bits(raised[..j])
    {
      ghost var before := fingers;
      var tipId := tipIds[j];
      if hand[tipId].y < hand[tipId - 2].y {
        fingers := fingers + [1];
      } else {
        fingers := fingers + [0];
      }
      assert fingers == before + [if raised[j] then 1 else 0];
      BitsStep(raised, j, before, fingers);
    }

    assert raised[..|tipIds|] == raised;
    count := Sum(fingers);
    SumBits(raised);
  }

  /** One more entry adds its 0/1 bit at the end of the list. */
  lemma BitsStep(bs: seq<bool>, j: nat, before: seq<int>, after: seq<int>)
    requires j < |bs|
    requires before == Bits(bs[..j])
    requires after == before + [if bs[j] then 1 else 0]
    ensures after == Bits(bs[..j + 1])
  {
  }

  /** Summing the 0/1 list counts the fingers that are up. */
  lemma {:induction false} SumBits(bs: seq<bool>)
    ensures Sum(Bits(bs)) == CountTrue(bs)
  {
    if bs != [] {
      assert Bits(bs)[1..] == Bits(bs[1..]);
      SumBits(bs[1..]);
    }
  }

  // ---------------------------------------------------------------------
  // Properties of the count
  // ---------------------------------------------------------------------

  /** A list has as many true entries as its length exactly when all are true, and none exactly when all are false. */
  lemma {:induction false} CountTrueExtremes(bs: seq<bool>)
    ensures CountTrue(bs) == |bs| <==> forall k :: 0 <= k < |bs| ==> bs[k]
    ensures CountTrue(bs) == 0 <==> forall k :: 0 <= k < |bs| ==> !bs[k]
  {
    if bs != [] {
      CountTrueExtremes(bs[1..]);
      assert forall k :: 1 <= k < |bs| ==> bs[k] == bs[1..][k - 1];
    }
  }

  /** All five fingers are up exactly when the count is 5 ("Open Hand"), none exactly when it is 0 ("Fist"). */
  lemma OpenHandAndFist(hand: Hand, handedness: String)
    requires |hand| >= LandmarkCount
    ensures FingerCount(hand, handedness) == 5 <==>
      ThumbUp(hand, handedness) && forall j :: 1 <= j < |TipIds| ==> FingerUp(hand, TipIds[j])
    ensures FingerCount(hand, handedness) == 0 <==>
      !ThumbUp(hand, handedness) && forall j :: 1 <= j < |TipIds| ==> !FingerUp(hand, TipIds[j])
  {
    var raised := Raised(hand, handedness);
    CountTrueExtremes(raised);
    assert raised[0] == ThumbUp(hand, handedness);
  }

  /** Every comparison is strict, so a hand whose landmarks all coincide holds no finger up. */
  lemma CoincidentLandmarksGiveFist(hand: Hand, handedness: String)
    requires |hand| >= LandmarkCount
    requires forall i :: 0 <= i < |hand| ==> hand[i] == hand[0]
    ensures FingerCount(hand, handedness) == 0
  {
    var raised := Raised(hand, handedness);
    assert hand[3] == hand[4];
    forall j | 1 <= j < |TipIds|
      ensures !raised[j]
    {
      assert hand[TipIds[j]] == hand[TipIds[j] - 2];
    }
    CountTrueExtremes(raised);
  }

  /**
   * Only the x of landmarks 3 and 4 and the y of landmarks 6, 8, 10, 12,
   * 14, 16, 18 and 20 decide the count.
   */
  lemma CountReadsOnlyJoints(h1: Hand, h2: Hand, handedness: String)
    requires |h1| >= LandmarkCount && |h2| >= LandmarkCount
    requires h1[3].x == h2[3].x && h1[4].x == h2[4].x
    requires forall j :: 1 <= j < |TipIds| ==>
      h1[TipIds[j]].y == h2[TipIds[j]].y && h1[TipIds[j] - 2].y == h2[TipIds[j] - 2].y
    ensures FingerCount(h1, handedness) == FingerCount(h2, handedness)
  {
    var r1, r2 := Raised(h1, handedness), Raised(h2, handedness);
    forall j | 0 <= j < |TipIds|
      ensures r1[j] == r2[j]
    {
    }
    assert r1 == r2;
  }

  /** Only the label "Right" selects the right-hand thumb test; every other label, "Left" or not, gives the same count. */
  lemma NonRightLabelsAgree(hand: Hand, l1: String, l2: String)
    requires |hand| >= LandmarkCount
    requires l1 != "Right" && l2 != "Right"
    ensures FingerCount(hand, l1) == FingerCount(hand, l2)
  {
    assert ThumbUp(hand, l1) == ThumbUp(hand, l2);
    assert Raised(hand, l1) == Raised(hand, l2);
  }

  /**
   * The two thumb tests are opposite: unless the thumb tip and the joint
   * below it share an x, the thumb is up for exactly one of "Right" and "Left".
   */
  lemma ThumbTestsOpposite(hand: Hand)
    requires |hand| >= LandmarkCount
    ensures hand[4].x != hand[3].x <==> ThumbUp(hand, "Right") != ThumbUp(hand, "Left")
  {
  }

  // ---------------------------------------------------------------------
  // Action labels
  // ---------------------------------------------------------------------

  /** The labels for 0 to 5 fingers, in order. */
  const Labels: seq<String> := ["Fist", "One Finger", "Two Fingers", "Three Fingers", "Four Fingers", "Open Hand"]

  /** What follows the number in the label for any other count. */
  const FingersWord: String := " Fingers"

  /** The decimal digit for 0 to 9. */
  function DigitChar(d: nat): (c: char)
    requires d < 10
    ensures '0' <= c <= '9' && c as int - '0' as int == d
  {
    (d + '0' as int) as char
  }

  /** Python's `str` of a natural number: its decimal digits, without leading zeros. */
  function NatToString(n: nat): (s: String)
    ensures |s| > 0 && AllDigits(s)
    ensures |s| > 1 ==> s[0] != '0'
  {
    if n < 10 then [DigitChar(n)] else NatToString(n / 10) + [DigitChar(n % 10)]
  }

  /** Python's `str` of an integer: a minus sign before the digits of a negative one. */
  function IntToString(n: int): (s: String)
    ensures |s| > 0 && (s[0] == '-' <==> n < 0)
    ensures n >= 0 ==> AllDigits(s)
    ensures n < 0 ==> AllDigits(s[1..])
  {
    if n < 0 then
      var s := "-" + NatToString(-n);
      assert s[1..] == NatToString(-n);
      s
    else
      NatToString(n)
  }

  predicate AllDigits(s: String)
  {
    forall k :: 0 <= k < |s| ==> '0' <= s[k] <= '9'
  }

  /** The value of a non-empty string of decimal digits. */
  function ParseNat(s: String): nat
    requires |s| > 0 && AllDigits(s)
  {
    var last := s[|s| - 1] as int - '0' as int;
    if |s| == 1 then last else ParseNat(s[..|s| - 1]) * 10 + last
  }

  /** The integer a decimal numeral with an optional leading minus sign denotes. */
  function ParseInt(s: String): Option<int>
  {
    if |s| > 1 && s[0] == '-' && AllDigits(s[1..]) then Some(0 - ParseNat(s[1..]))
    else if |s| > 0 && AllDigits(s) then Some(ParseNat(s))
    else None
  }

  /** Reading back the digits of a natural number gives the number. */
  lemma {:induction false} ParseNatToString(n: nat)
    ensures ParseNat(NatToString(n)) == n
  {
    if n >= 10 {
      var s := NatToString(n);
      assert s[..|s| - 1] == NatToString(n / 10);
      ParseNatToString(n / 10);
    }
  }

  /** Reading back the numeral of an integer gives the integer. */
  lemma ParseIntToString(n: int)
    ensures ParseInt(IntToString(n)) == Some(n)
  {
    if n < 0 {
      ParseNegativeNumeral(-n);
    } else {
      ParseNonNegativeNumeral(n);
    }
  }

  /** A numeral without a sign reads back as the natural number it spells. */
  lemma ParseNonNegativeNumeral(n: nat)
    ensures ParseInt(NatToString(n)) == Some(n)
  {
    var s := NatToString(n);
    assert '0' <= s[0] <= '9';
    ParseNatToString(n);
  }

  /** The numeral of a negative integer is a minus sign followed by the digits of its magnitude, and reads back as it. */
  lemma ParseNegativeNumeral(m: nat)
    requires m > 0
    ensures var s := IntToString(-(m as int)); |s| > 1 && s[0] == '-' && s[1..] == NatToString(m)
    ensures ParseInt(IntToString(-(m as int))) == Some(-(m as int))
  {
    var s := IntToString(-(m as int));
    assert s == "-" + NatToString(m);
    assert s[1..] == NatToString(m);
    ParseNatToString(m);
  }

  /**
   * The label chain: the fixed label for 0 to 5 fingers, and otherwise the
   * number followed by " Fingers".
   */
  function ActionLabel(fingersUp: int): (text: String)
    ensures 0 <= fingersUp < |Labels| ==> text == Labels[fingersUp]
    ensures !(0 <= fingersUp < |Labels|) ==> text !in Labels
  {
    if fingersUp == 0 then "Fist"
    else if fingersUp == 1 then "One Finger"
    else if fingersUp == 2 then "Two Fingers"
    else if fingersUp == 3 then "Three Fingers"
    else if fingersUp == 4 then "Four Fingers"
    else if fingersUp == 5 then "Open Hand"
    else
      // a numeral starts with a sign or a digit, every fixed label with a capital letter
      var text := IntToString(fingersUp) + FingersWord;
      assert text[0] == '-' || '0' <= text[0] <= '9';
      assert forall i :: 0 <= i < |Labels| ==> Labels[i][0] in {'F', 'O', 'T'};
      text
  }

  /** The position of a fixed label in `Labels`, if it is one. */
  function LabelIndex(text: String): (r: Option<nat>)
    ensures r.Some? <==> text in Labels
    ensures r.Some? ==> r.value < |Labels| && Labels[r.value] == text
  {
    if text == Labels[0] then Some(0)
    else if text == Labels[1] then Some(1)
    else if text == Labels[2] then Some(2)
    else if text == Labels[3] then Some(3)
    else if text == Labels[4] then Some(4)
    else if text == Labels[5] then Some(5)
    else None
  }

  /** The number of fingers a label stands for: the inverse of `ActionLabel`. */
  function LabelFingers(text: String): Option<int>
  {
    match LabelIndex(text)
    case Some(i) => Some(i)
    case None =>
      if |text| >= |FingersWord| && text[|text| - |FingersWord|..] == FingersWord
      then ParseInt(text[..|text| - |FingersWord|])
      else None
  }

  /** Every count can be read back from its label, so distinct counts get distinct labels. */
  lemma LabelRoundTrip(fingersUp: int)
    ensures LabelFingers(ActionLabel(fingersUp)) == Some(fingersUp)
  {
    var text := ActionLabel(fingersUp);
    if !(0 <= fingersUp < |Labels|) {
      var n := IntToString(fingersUp);
      assert text[..|text| - |FingersWord|] == n;
      assert text[|text| - |FingersWord|..] == FingersWord;
      ParseIntToString(fingersUp);
    }
  }

  /**
   * The label drawn for a detected hand. Since the count lies between 0 and
   * 5, the label is always one of the six fixed ones and the numeric
   * fallback is never drawn.
   */
  lemma HandLabelIsFixed(hand: Hand, handedness: String)
    requires |hand| >= LandmarkCount
    ensures ActionLabel(FingerCount(hand, handedness)) == Labels[FingerCount(hand, handedness)]
  {
  }
}
