/**
 * The J-shape rack of the pool prototype sketch.js: the Fisher-Yates shuffle,
 * the 15-slot formation array of `createJShapeRack`, and the placement of the
 * formation as a triangle of five rows.
 *
 * `Math.random()` is replaced by explicit draws in [0, 1), one per call, in the
 * order the code makes the calls. Creating the physics bodies is left out: a
 * placed ball is its position, its fill colour and its colour type.
 */
module Sketch {
  import opened Balls
  import Game

  /** A formation slot: `null` (never written), `undefined` (read past the fill list) or a colour name. */
  datatype Slot = Null | Undefined | Red | Yellow | Black

  /** JavaScript truthiness of a slot: only a colour name counts as filled. */
  predicate IsFilled(s: Slot)
  {
    s == Red || s == Yellow || s == Black
  }

  /** Every draw lies in [0, 1), as `Math.random()` promises. */
  predicate UnitDraws(draws: seq<real>)
  {
    forall k :: 0 <= k < |draws| ==> 0.0 <= draws[k] < 1.0
  }

  // ---------------------------------------------------------------------------
  // shuffleInPlace
  // ---------------------------------------------------------------------------

  /** The floor of the draw times `i + 1`: a draw in [0, 1) picks an index in [0, i]. */
  function Pick(draw: real, i: nat): (j: int)
    requires 0.0 <= draw < 1.0
    ensures 0 <= j <= i
  {
    var n := (i + 1) as real;
    assert draw * n < n by {
      assert draw * n < 1.0 * n;
    }
    (draw * n).Floor
  }

  /**
   * `shuffleInPlace`: from the last index down to 1, swap with a picked index at
   * or below it. Whatever the draws, the result is a permutation of the input,
   * and an array of at most one element is left as it is.
   */
  method ShuffleInPlace<T>(a: array<T>, draws: seq<real>)
    requires a.Length <= |draws| + 1
    requires UnitDraws(draws)
    modifies a
    ensures multiset(a[..]) == multiset(old(a[..]))
    ensures a.Length <= 1 ==> a[..] == old(a[..])
  {
    ghost var orig := a[..];
    var i := a.Length - 1;
    while i > 0
      invariant -1 <= i < a.Length
      invariant multiset(a[..]) == multiset(orig)
      invariant a.Length <= 1 ==> a[..] == orig
      decreases i
    {
      var j := Pick(draws[a.Length - 1 - i], i);
      ghost var before := a[..];
      a[i], a[j] := a[j], a[i];
      assert a[..] == before[i := before[j]][j := before[i]];
      SwapKeepsMultiset(before, i, j);
      i := i - 1;
    }
  }

  /** Exchanging two elements of a sequence keeps its multiset of elements. */
  lemma SwapKeepsMultiset<T>(s: seq<T>, i: nat, j: nat)
    requires i < |s| && j < |s|
    ensures multiset(s[i := s[j]][j := s[i]]) == multiset(s)
  {
  }

  /** A permutation of a sequence holding one value throughout holds only that value. */
  lemma UniformPermutation<T>(s: seq<T>, t: seq<T>, v: T)
    requires multiset(s) == multiset(t)
    requires forall k :: 0 <= k < |s| ==> s[k] == v
    ensures |t| == |s|
    ensures forall k :: 0 <= k < |t| ==> t[k] == v
  {
    assert |t| == |multiset(t)| == |multiset(s)| == |s|;
    forall k | 0 <= k < |t|
      ensures t[k] == v
    {
      assert t[k] in multiset(t);
      assert t[k] in s;
    }
  }

  // ---------------------------------------------------------------------------
  // The formation array
  // ---------------------------------------------------------------------------

  /**
   * `RED` and `YELLOW`: the colour of the front and left-corner balls, and the
   * other one. They are always the two distinct colours red and yellow.
   */
  function RackColours(leftIsRed: bool): (c: (Slot, Slot))
    ensures c.0 != c.1
    ensures (c.0 == Red || c.0 == Yellow) && (c.1 == Red || c.1 == Yellow)
    ensures c.0 == Red <==> leftIsRed
  {
    if leftIsRed then (Red, Yellow) else (Yellow, Red)
  }

  /** The coin that puts red in the left corner: a draw strictly above one half. */
  predicate LeftIsRed(coin: real)
  {
    coin > 0.5
  }

  /**
   * The three slots whose index the code and its (row, col) comments disagree
   * on: where the black goes, the J's inner yellow and the inner red.
   */
  datatype RackSlots = RackSlots(black: nat, jInner: nat, redInner: nat)

  /** The indices written in sketch.js: black at 6, J stripe at 4, inner red at 5. */
  const AsWritten: RackSlots := RackSlots(6, 4, 5)

  /** The indices of the comments' coordinates (2,1), (2,2) and (2,0). */
  const Intended: RackSlots := RackSlots(4, 5, 3)

  predicate SlotsInRange(slots: RackSlots)
  {
    slots.black < 15 && slots.jInner < 15 && slots.redInner < 15
  }

  /** The formation after the direct writes and before the fill loop. */
  function Assigned(slots: RackSlots, leftIsRed: bool): seq<Slot>
    requires SlotsInRange(slots)
  {
    var (red, yellow) := RackColours(leftIsRed);
    seq(15, _ => Null)
      [slots.black := Black]
      [10 := red][14 := yellow]
      [6 := red][13 := red][11 := yellow][12 := yellow]
      [9 := yellow][8 := yellow][slots.jInner := yellow]
      [slots.redInner := red][7 := red]
      [0 := red][1 := red][2 := yellow]
  }

  /** How many slots of `s` hold `c`. */
  function Count(s: seq<Slot>, c: Slot): nat
  {
    multiset(s)[c]
  }

  /** How many times a `for (i = 0; i < n; i++)` loop runs: none when `n` is not positive. */
  function Runs(n: int): nat
  {
    if n < 0 then 0 else n
  }

  function Repeat(c: Slot, n: nat): seq<Slot>
  {
    seq(n, _ => c)
  }

  /** `fillOrder` before it is shuffled: the reds and then the yellows still missing from seven each. */
  function FillList(s: seq<Slot>): seq<Slot>
  {
    Repeat(Red, Runs(7 - Count(s, Red))) + Repeat(Yellow, Runs(7 - Count(s, Yellow)))
  }

  /** How many slots of `s` are empty. */
  function EmptyCount(s: seq<Slot>): nat
  {
    if s == [] then 0 else EmptyCount(s[..|s| - 1]) + (if IsFilled(s[|s| - 1]) then 0 else 1)
  }

  /** `fillOrder[f]`, which is `undefined` past the end. */
  function At(order: seq<Slot>, f: nat): Slot
  {
    if f < |order| then order[f] else Undefined
  }

  /**
   * The formation after the fill loop, slot by slot from the front: a filled
   * slot is kept, and an empty one takes the entry of the fill order numbered
   * by the empty slots before it.
   */
  function Filled(s: seq<Slot>, order: seq<Slot>): (r: seq<Slot>)
    ensures |r| == |s|
  {
    if s == [] then []
    else
      var front, x := s[..|s| - 1], s[|s| - 1];
      Filled(front, order) + [if IsFilled(x) then x else At(order, EmptyCount(front))]
  }

  /** `result` is `layout` filled with `order`, a permutation of the fill list. */
  predicate FillsWith(layout: seq<Slot>, order: seq<Slot>, result: seq<Slot>)
  {
    multiset(order) == multiset(FillList(layout)) && result == Filled(layout, order)
  }

  predicate AllFilled(s: seq<Slot>)
  {
    forall i :: 0 <= i < |s| ==> IsFilled(s[i])
  }

  /** Filling keeps every filled slot, and each empty one takes the fill entry numbered by the empty slots before it. */
  lemma {:induction false} FilledAt(s: seq<Slot>, order: seq<Slot>)
    ensures forall i :: 0 <= i < |s| ==>
              Filled(s, order)[i] == if IsFilled(s[i]) then s[i] else At(order, EmptyCount(s[..i]))
    decreases |s|
  {
    if s != [] {
      var front := s[..|s| - 1];
      FilledAt(front, order);
      forall i | 0 <= i < |front|
        ensures s[..i] == front[..i]
      {
      }
    }
  }

  /**
   * With a fill order made only of colours, the fill loop leaves every slot
   * filled exactly when the fill order has an entry for every empty slot.
   */
  lemma {:induction false} FilledComplete(s: seq<Slot>, order: seq<Slot>)
    requires AllFilled(order)
    ensures AllFilled(Filled(s, order)) <==> EmptyCount(s) <= |order|
    decreases |s|
  {
    if s != [] {
      var front, x := s[..|s| - 1], s[|s| - 1];
      assert s == front + [x];
      FilledComplete(front, order);
      var F := Filled(front, order);
      var y := if IsFilled(x) then x else At(order, EmptyCount(front));
      assert Filled(s, order) == F + [y];
      assert (F + [y])[|F|] == y;
      assert forall i :: 0 <= i < |F| ==> (F + [y])[i] == F[i];
      assert AllFilled(F + [y]) <==> AllFilled(F) && IsFilled(y);
    }
  }

  /**
   * The fill loop: a single pass from slot 0 to 14 with a fill cursor; each
   * empty slot takes the fill order's entry at the cursor (`undefined` past its
   * end) and advances the cursor.
   */
  method FillEmptySlots(formation: array<Slot>, fillOrder: seq<Slot>)
    modifies formation
    ensures formation[..] == Filled(old(formation[..]), fillOrder)
    ensures forall i :: 0 <= i < formation.Length && IsFilled(old(formation[i])) ==> formation[i] == old(formation[i])
  {
    ghost var orig := formation[..];
    var f := 0;
    for i := 0 to formation.Length
      invariant f == EmptyCount(orig[..i])
      invariant formation[..i] == Filled(orig[..i], fillOrder)
      invariant formation[i..] == orig[i..]
    {
      assert orig[..i + 1][..i] == orig[..i];
      assert formation[i] == orig[i];
      if !IsFilled(formation[i]) {
        formation[i] := At(fillOrder, f);
        f := f + 1;
      }
      assert formation[..i + 1] == formation[..i] + [formation[i]];
    }
    assert formation[..] == formation[..formation.Length];
    assert orig == orig[..formation.Length];
    FilledAt(orig, fillOrder);
  }

  /**
   * Lines 93-100: two shuffled pairs, one red and one yellow, written to slots
   * 6 and 13 and to slots 11 and 12. A pair of one colour reads back as that
   * colour whatever its shuffle does.
   */
  method PlaceStripes(formation: array<Slot>, red: Slot, yellow: Slot, redDraws: seq<real>, yellowDraws: seq<real>)
    requires formation.Length == 15
    requires |redDraws| >= 1 && |yellowDraws| >= 1
    requires UnitDraws(redDraws) && UnitDraws(yellowDraws)
    modifies formation
    ensures formation[..] == old(formation[..])[6 := red][13 := red][11 := yellow][12 := yellow]
  {
    var redStripe2 := new Slot[2](_ => red);
    var yellowStripe2 := new Slot[2](_ => yellow);
    ghost var redBefore, yellowBefore := redStripe2[..], yellowStripe2[..];
    ShuffleInPlace(redStripe2, redDraws);
    ShuffleInPlace(yellowStripe2, yellowDraws);
    UniformPermutation(redBefore, redStripe2[..], red);
    UniformPermutation(yellowBefore, yellowStripe2[..], yellow);
    formation[6] := redStripe2[0];
    formation[13] := redStripe2[1];
    formation[11] := yellowStripe2[0];
    formation[12] := yellowStripe2[1];
  }

  /**
   * Lines 103-107: the shuffled yellow triple of the J's hook, written to slots
   * 9, 8 and `jInner`.
   */
  method PlaceJ(formation: array<Slot>, yellow: Slot, jInner: nat, jDraws: seq<real>)
    requires formation.Length == 15 && jInner < 15
    requires |jDraws| >= 2 && UnitDraws(jDraws)
    modifies formation
    ensures formation[..] == old(formation[..])[9 := yellow][8 := yellow][jInner := yellow]
  {
    var jStripe := new Slot[3](_ => yellow);
    ghost var jBefore := jStripe[..];
    ShuffleInPlace(jStripe, jDraws);
    UniformPermutation(jBefore, jStripe[..], yellow);
    formation[9] := jStripe[0];
    formation[8] := jStripe[1];
    formation[jInner] := jStripe[2];
  }

  /**
   * Lines 78-118 of `createJShapeRack`: the direct writes into a fresh
   * formation. The stripes hold one colour each, so whatever their shuffles do
   * they are read back as that colour.
   */
  method AssignSlots(slots: RackSlots, leftIsRed: bool, redDraws: seq<real>, yellowDraws: seq<real>,
                     jDraws: seq<real>)
    returns (formation: array<Slot>)
    requires SlotsInRange(slots)
    requires |redDraws| >= 1 && |yellowDraws| >= 1 && |jDraws| >= 2
    requires UnitDraws(redDraws) && UnitDraws(yellowDraws) && UnitDraws(jDraws)
    ensures fresh(formation)
    ensures formation[..] == Assigned(slots, leftIsRed)
  {
    var (red, yellow) := RackColours(leftIsRed);

    formation := new Slot[15](_ => Null);
    ghost var target := seq(15, _ => Null);
    assert formation[..] == target;
    formation[slots.black] := Black;
    formation[10] := red;
    formation[14] := yellow;
    target := target[slots.black := Black][10 := red][14 := yellow];
    assert formation[..] == target;

    PlaceStripes(formation, red, yellow, redDraws, yellowDraws);
    target := target[6 := red][13 := red][11 := yellow][12 := yellow];
    assert formation[..] == target;

    PlaceJ(formation, yellow, slots.jInner, jDraws);
    target := target[9 := yellow][8 := yellow][slots.jInner := yellow];
    assert formation[..] == target;

    formation[slots.redInner] := red;
    formation[7] := red;
    formation[0] := red;
    formation[1] := red;
    formation[2] := yellow;
    target := target[slots.redInner := red][7 := red][0 := red][1 := red][2 := yellow];
    assert formation[..] == target;
  }

  /**
   * Lines 120-126: the reds and then the yellows needed to reach seven of each
   * (none of a colour that already has seven or more), shuffled.
   */
  method MakeFillOrder(formation: array<Slot>, fillDraws: seq<real>) returns (fillOrder: array<Slot>)
    requires |fillDraws| >= 13 && UnitDraws(fillDraws)
    requires formation.Length == 15
    ensures fresh(fillOrder)
    ensures multiset(fillOrder[..]) == multiset(FillList(formation[..]))
  {
    var redsToFill := 7 - Count(formation[..], Red);
    var yellowsToFill := 7 - Count(formation[..], Yellow);
    var order: seq<Slot> := [];
    var i := 0;
    while i < redsToFill
      invariant 0 <= i <= Runs(redsToFill)
      invariant order == Repeat(Red, i)
    {
      order := order + [Red];
      i := i + 1;
    }
    ghost var reds := order;
    i := 0;
    while i < yellowsToFill
      invariant 0 <= i <= Runs(yellowsToFill)
      invariant order == reds + Repeat(Yellow, i)
    {
      order := order + [Yellow];
      i := i + 1;
    }
    assert order == FillList(formation[..]);
    fillOrder := new Slot[|order|](k requires 0 <= k < |order| => order[k]);
    assert fillOrder[..] == order;
    ShuffleInPlace(fillOrder, fillDraws);
  }

  /**
   * Lines 78-132 of `createJShapeRack`: the direct writes, the fill list and the
   * fill loop. `coin` is the draw of `leftIsRed`; the other draws feed the four
   * shuffles in order. The result is the assigned layout filled with
   * `shuffled`, a permutation of the fill list.
   */
  method BuildFormation(slots: RackSlots, coin: real, redDraws: seq<real>, yellowDraws: seq<real>,
                        jDraws: seq<real>, fillDraws: seq<real>)
    returns (formation: array<Slot>, ghost shuffled: seq<Slot>)
    requires SlotsInRange(slots)
    requires |redDraws| >= 1 && |yellowDraws| >= 1 && |jDraws| >= 2 && |fillDraws| >= 13
    requires UnitDraws(redDraws) && UnitDraws(yellowDraws) && UnitDraws(jDraws) && UnitDraws(fillDraws)
    ensures fresh(formation) && formation.Length == 15
    ensures FillsWith(Assigned(slots, LeftIsRed(coin)), shuffled, formation[..])
  {
    var leftIsRed := LeftIsRed(coin);
    formation := AssignSlots(slots, leftIsRed, redDraws, yellowDraws, jDraws);
    ghost var layout := formation[..];
    var fillOrder := MakeFillOrder(formation, fillDraws);
    var order := fillOrder[..];
    assert multiset(order) == multiset(FillList(layout));
    FillEmptySlots(formation, order);
    assert formation[..] == Filled(layout, order);
    shuffled := order;
  }

  /** With an empty fill order, the fill loop turns every empty slot into `undefined`. */
  lemma FilledWithNothing(layout: seq<Slot>, order: seq<Slot>, result: seq<Slot>)
    requires FillsWith(layout, order, result)
    requires FillList(layout) == []
    ensures |result| == |layout|
    ensures forall i :: 0 <= i < |layout| ==> result[i] == if IsFilled(layout[i]) then layout[i] else Undefined
  {
    assert |order| == |multiset(order)| == 0;
    FilledAt(layout, order);
  }

  /** Turning empty slots into `undefined` changes the count of no colour. */
  lemma {:induction false} EmptyFillCounts(layout: seq<Slot>, result: seq<Slot>, c: Slot)
    requires |result| == |layout|
    requires forall i :: 0 <= i < |layout| ==> result[i] == if IsFilled(layout[i]) then layout[i] else Undefined
    requires IsFilled(c)
    ensures Count(result, c) == Count(layout, c)
    decreases |layout|
  {
    if layout != [] {
      var n := |layout| - 1;
      EmptyFillCounts(layout[..n], result[..n], c);
      assert layout == layout[..n] + [layout[n]];
      assert result == result[..n] + [result[n]];
    }
  }

  /** A formation with no `null` and no `undefined` in it is completely filled. */
  lemma AllFilledByCount(s: seq<Slot>)
    requires Count(s, Null) == 0 && Count(s, Undefined) == 0
    ensures AllFilled(s)
  {
    forall i | 0 <= i < |s|
      ensures IsFilled(s[i])
    {
      assert s[i] in multiset(s);
    }
  }

  /** A J-shape formation spelled out slot by slot; slots 3, 4 and 5 are the ones the layouts disagree on. */
  function JRack(red: Slot, yellow: Slot, s3: Slot, s4: Slot, s5: Slot): seq<Slot>
  {
    [red, red, yellow] + [s3, s4, s5] + [red, red, yellow] + [yellow, red, yellow] + [yellow, red, yellow]
  }

  /** The direct writes at the written indices, slot by slot: slot 3 is the one left empty. */
  lemma AssignedAsWritten(leftIsRed: bool)
    ensures leftIsRed ==> Assigned(AsWritten, leftIsRed) == JRack(Red, Yellow, Null, Yellow, Red)
    ensures !leftIsRed ==> Assigned(AsWritten, leftIsRed) == JRack(Yellow, Red, Null, Red, Yellow)
  {
  }

  /** The direct writes at the comments' indices, slot by slot: no slot is left empty. */
  lemma AssignedIntended(leftIsRed: bool)
    ensures leftIsRed ==> Assigned(Intended, leftIsRed) == JRack(Red, Yellow, Red, Black, Yellow)
    ensures !leftIsRed ==> Assigned(Intended, leftIsRed) == JRack(Yellow, Red, Yellow, Black, Red)
  {
  }

  /** As written, red on the left: seven of each colour, no black, nothing in slot 3. */
  lemma RedLeftCounts()
    ensures |JRack(Red, Yellow, Null, Yellow, Red)| == 15 && JRack(Red, Yellow, Null, Yellow, Red)[3] == Null
    ensures Count(JRack(Red, Yellow, Null, Yellow, Red), Red) == 7
    ensures Count(JRack(Red, Yellow, Null, Yellow, Red), Yellow) == 7
    ensures Count(JRack(Red, Yellow, Null, Yellow, Red), Black) == 0
  {
  }

  /** As written, yellow on the left: the same counts. */
  lemma YellowLeftCounts()
    ensures |JRack(Yellow, Red, Null, Red, Yellow)| == 15 && JRack(Yellow, Red, Null, Red, Yellow)[3] == Null
    ensures Count(JRack(Yellow, Red, Null, Red, Yellow), Red) == 7
    ensures Count(JRack(Yellow, Red, Null, Red, Yellow), Yellow) == 7
    ensures Count(JRack(Yellow, Red, Null, Red, Yellow), Black) == 0
  {
  }

  /** The comments' layout, red on the left: seven of each colour, one black, no empty slot. */
  lemma RedLeftIntendedCounts()
    ensures |JRack(Red, Yellow, Red, Black, Yellow)| == 15 && JRack(Red, Yellow, Red, Black, Yellow)[4] == Black
    ensures Count(JRack(Red, Yellow, Red, Black, Yellow), Null) == 0
    ensures Count(JRack(Red, Yellow, Red, Black, Yellow), Undefined) == 0
    ensures Count(JRack(Red, Yellow, Red, Black, Yellow), Red) == 7
    ensures Count(JRack(Red, Yellow, Red, Black, Yellow), Yellow) == 7
    ensures Count(JRack(Red, Yellow, Red, Black, Yellow), Black) == 1
  {
  }

  /** The comments' layout, yellow on the left: the same counts. */
  lemma YellowLeftIntendedCounts()
    ensures |JRack(Yellow, Red, Yellow, Black, Red)| == 15 && JRack(Yellow, Red, Yellow, Black, Red)[4] == Black
    ensures Count(JRack(Yellow, Red, Yellow, Black, Red), Null) == 0
    ensures Count(JRack(Yellow, Red, Yellow, Black, Red), Undefined) == 0
    ensures Count(JRack(Yellow, Red, Yellow, Black, Red), Red) == 7
    ensures Count(JRack(Yellow, Red, Yellow, Black, Red), Yellow) == 7
    ensures Count(JRack(Yellow, Red, Yellow, Black, Red), Black) == 1
  {
  }

  /** A rack with `undefined` at slot 3 is not completely filled. */
  lemma HoleAtThree(s: seq<Slot>)
    requires |s| == 15 && s[3] == Undefined
    ensures !AllFilled(s)
  {
    assert !IsFilled(s[3]);
  }

  /**
   * A layout with seven reds, seven yellows and no black leaves nothing to fill:
   * its empty slot 3 reads `undefined`, and the counts carry over.
   */
  lemma HoledFill(layout: seq<Slot>, order: seq<Slot>, result: seq<Slot>)
    requires |layout| == 15 && layout[3] == Null
    requires Count(layout, Red) == 7 && Count(layout, Yellow) == 7 && Count(layout, Black) == 0
    requires FillsWith(layout, order, result)
    ensures |result| == 15
    ensures result[3] == Undefined && !AllFilled(result)
    ensures Count(result, Black) == 0
    ensures Count(result, Red) == 7 && Count(result, Yellow) == 7
  {
    assert FillList(layout) == [];
    FilledWithNothing(layout, order, result);
    EmptyFillCounts(layout, result, Red);
    EmptyFillCounts(layout, result, Yellow);
    EmptyFillCounts(layout, result, Black);
    HoleAtThree(result);
  }

  /**
   * The formation as written: the black written to slot 6 is overwritten by the
   * red stripe, slot 3 is never written, and seven reds and seven yellows leave
   * an empty fill list. So, whatever the coin and whatever the shuffle of the
   * (empty) fill list, slot 3 is read as `undefined` and no slot is black.
   */
  lemma AsWrittenFormation(leftIsRed: bool)
    ensures FillList(Assigned(AsWritten, leftIsRed)) == []
    ensures var result := Filled(Assigned(AsWritten, leftIsRed), []);
      && |result| == 15
      && result[3] == Undefined && !AllFilled(result)
      && Count(result, Black) == 0
      && Count(result, Red) == 7 && Count(result, Yellow) == 7
  {
    AssignedAsWritten(leftIsRed);
    if leftIsRed {
      RedLeftCounts();
      HoledLayout(JRack(Red, Yellow, Null, Yellow, Red));
    } else {
      YellowLeftCounts();
      HoledLayout(JRack(Yellow, Red, Null, Red, Yellow));
    }
  }

  /** `HoledFill` for the empty fill order a holed layout leaves. */
  lemma HoledLayout(layout: seq<Slot>)
    requires |layout| == 15 && layout[3] == Null
    requires Count(layout, Red) == 7 && Count(layout, Yellow) == 7 && Count(layout, Black) == 0
    ensures FillList(layout) == []
    ensures var result := Filled(layout, []);
      && |result| == 15
      && result[3] == Undefined && !AllFilled(result)
      && Count(result, Black) == 0
      && Count(result, Red) == 7 && Count(result, Yellow) == 7
  {
    assert FillList(layout) == [];
    HoledFill(layout, [], Filled(layout, []));
  }

  /**
   * A layout with no empty slot is left as it is by the fill, and a layout with
   * a single black at slot 4 keeps it there and nowhere else.
   */
  lemma FullFill(layout: seq<Slot>, order: seq<Slot>, result: seq<Slot>)
    requires |layout| == 15 && layout[4] == Black
    requires Count(layout, Null) == 0 && Count(layout, Undefined) == 0
    requires Count(layout, Red) == 7 && Count(layout, Yellow) == 7 && Count(layout, Black) == 1
    requires FillsWith(layout, order, result)
    ensures result == layout
    ensures forall k :: 0 <= k < |result| ==> (result[k] == Black <==> k == 4)
  {
    AllFilledByCount(layout);
    assert FillList(layout) == [];
    FilledWithNothing(layout, order, result);
    forall k | 0 <= k < |layout| && k != 4
      ensures layout[k] != Black
    {
      if k < 4 {
        SameTwice(layout, k, 4);
      } else {
        SameTwice(layout, 4, k);
      }
    }
  }

  /** Two equal elements at different indices occur at least twice. */
  lemma SameTwice<T>(s: seq<T>, i: nat, j: nat)
    requires i < j < |s|
    ensures s[i] == s[j] ==> multiset(s)[s[j]] >= 2
  {
    assert s == s[..j] + [s[j]] + s[j + 1..];
    assert s[i] == s[..j][i];
  }

  /**
   * The formation with the comments' coordinates: the direct writes fill every
   * slot, so the fill list is empty and the fill changes nothing. Every slot is
   * filled, the one black is in the centre of the third row (row 2, column 1),
   * and there are seven reds and seven yellows, whatever the coin.
   */
  lemma IntendedFormation(leftIsRed: bool)
    ensures FillList(Assigned(Intended, leftIsRed)) == []
    ensures var result := Filled(Assigned(Intended, leftIsRed), []);
      && result == Assigned(Intended, leftIsRed)
      && |result| == 15 && AllFilled(result)
      && result[SlotIndex(2, 1)] == Black && Count(result, Black) == 1
      && (forall k :: 0 <= k < |result| ==> (result[k] == Black <==> k == SlotIndex(2, 1)))
      && Count(result, Red) == 7 && Count(result, Yellow) == 7
  {
    AssignedIntended(leftIsRed);
    Game.TriFive();
    if leftIsRed {
      RedLeftIntendedCounts();
      FullLayout(JRack(Red, Yellow, Red, Black, Yellow));
    } else {
      YellowLeftIntendedCounts();
      FullLayout(JRack(Yellow, Red, Yellow, Black, Red));
    }
  }

  /** `FullFill` for the empty fill order a full layout leaves. */
  lemma FullLayout(layout: seq<Slot>)
    requires |layout| == 15 && layout[4] == Black
    requires Count(layout, Null) == 0 && Count(layout, Undefined) == 0
    requires Count(layout, Red) == 7 && Count(layout, Yellow) == 7 && Count(layout, Black) == 1
    ensures FillList(layout) == []
    ensures Filled(layout, []) == layout && AllFilled(layout)
    ensures forall k :: 0 <= k < |layout| ==> (layout[k] == Black <==> k == 4)
  {
    assert FillList(layout) == [];
    FullFill(layout, [], Filled(layout, []));
    AllFilledByCount(layout);
  }

  // ---------------------------------------------------------------------------
  // Placing the formation
  // ---------------------------------------------------------------------------

  const BallDiam: real := 26.0
  const TableW: real := 900.0
  const CanvasH: real := 800.0

  const BallRed: string := "#C30000"
  const BallYellow: string := "#FFEA00"
  const BallBlack: string := "#111111"

  /** A placed ball: `createBall(x, y, color, colorType)` without its physics body. */
  datatype RackBall = RackBall(position: Vec, colour: string, colourType: Slot)

  /** The fill colour of a slot: red and yellow have their own, anything else is drawn black. */
  function ColourOf(s: Slot): (c: string)
    ensures c == BallRed <==> s == Red
    ensures c == BallYellow <==> s == Yellow
    ensures c == BallBlack <==> s != Red && s != Yellow
  {
    if s == Red then BallRed
    else if s == Yellow then BallYellow
    else if s == Black then BallBlack
    else BallBlack
  }

  /** Row `row`, column `col` of the triangle is formation index `idx`. */
  function SlotIndex(row: nat, col: nat): nat
  {
    Game.Tri(row) + col
  }

  /** The row and column of formation index `k` in the triangle. */
  function SlotRow(k: nat): nat
  {
    if k < 1 then 0 else if k < 3 then 1 else if k < 6 then 2 else if k < 10 then 3 else 4
  }

  function SlotCol(k: nat): nat
  {
    Game.TriFive();
    k - Game.Tri(SlotRow(k))
  }

  /** Index `SlotIndex(row, col)` lies in row `row`, column `col`. */
  lemma SlotOf(row: nat, col: nat)
    requires col <= row < 5
    ensures SlotIndex(row, col) < 15
    ensures SlotRow(SlotIndex(row, col)) == row && SlotCol(SlotIndex(row, col)) == col
  {
    Game.TriFive();
  }

  /**
   * The five rows of `row + 1` columns visit each formation index 0..14 exactly
   * once.
   */
  lemma SlotIndexBijective()
    ensures forall row: nat, col: nat :: col <= row < 5 ==> SlotIndex(row, col) < 15
    ensures forall r1: nat, c1: nat, r2: nat, c2: nat ::
              c1 <= r1 < 5 && c2 <= r2 < 5 && SlotIndex(r1, c1) == SlotIndex(r2, c2) ==> r1 == r2 && c1 == c2
    ensures forall k: nat :: k < 15 ==>
              0 <= SlotCol(k) <= SlotRow(k) < 5 && SlotIndex(SlotRow(k), SlotCol(k)) == k
  {
    Game.TriFive();
    forall row: nat, col: nat | col <= row < 5
      ensures SlotIndex(row, col) < 15
    {
      Game.TriMonotone(row + 1, 5);
    }
    forall r1: nat, c1: nat, r2: nat, c2: nat |
      c1 <= r1 < 5 && c2 <= r2 < 5 && SlotIndex(r1, c1) == SlotIndex(r2, c2)
      ensures r1 == r2 && c1 == c2
    {
      if r1 < r2 {
        Game.TriMonotone(r1 + 1, r2);
      } else if r2 < r1 {
        Game.TriMonotone(r2 + 1, r1);
      }
    }
  }

  /** Where the ball of row `row`, column `col` is placed, for a table whose left edge is `x0`. */
  function SlotPosition(x0: real, row: nat, col: nat): Vec
  {
    var rackX := x0 + TableW - 220.0;
    var rackY := CanvasH / 2.0;
    var yStart := rackY - ((row + 1) - 1) as real * (BallDiam / 2.0);
    Vec(rackX + row as real * (BallDiam * 0.87), yStart + col as real * BallDiam)
  }

  /** The ball `createBall` makes for formation index `k`: at its slot's position, with its colour type. */
  function Placed(formation: seq<Slot>, x0: real, k: nat): RackBall
    requires k < |formation|
  {
    RackBall(SlotPosition(x0, SlotRow(k), SlotCol(k)), ColourOf(formation[k]), formation[k])
  }

  /**
   * The placement loops of `createJShapeRack`: fifteen balls, row by row, and
   * the ball at formation index `k` is placed at the position of its row and
   * column with the slot's colour type and its fill colour.
   */
  method PlaceRack(formation: seq<Slot>, x0: real) returns (result: seq<RackBall>)
    requires |formation| == 15
    ensures |result| == 15
    ensures forall k :: 0 <= k < 15 ==>
              result[k] == RackBall(SlotPosition(x0, SlotRow(k), SlotCol(k)), ColourOf(formation[k]), formation[k])
  {
    var rackX := x0 + TableW - 220.0;
    var rackY := CanvasH / 2.0;
    var rows := 5;
    result := [];
    var idx := 0;
    Game.TriFive();
    for row := 0 to rows
      invariant idx == |result| == Game.Tri(row)
      invariant forall k :: 0 <= k < |result| ==> result[k] == Placed(formation, x0, k)
    {
      var ballsInRow := row + 1;
      var x := rackX + row as real * (BallDiam * 0.87);
      var yStart := rackY - (ballsInRow - 1) as real * (BallDiam / 2.0);
      for col := 0 to ballsInRow
        invariant idx == |result| == Game.Tri(row) + col
        invariant forall k :: 0 <= k < |result| ==> result[k] == Placed(formation, x0, k)
      {
        SlotOf(row, col);
        var colourType := formation[idx];
        var colour := ColourOf(colourType);
        var ball := RackBall(Vec(x, yStart + col as real * BallDiam), colour, colourType);
        assert ball == Placed(formation, x0, idx) by {
          assert SlotPosition(x0, row, col) == Vec(x, yStart + col as real * BallDiam);
        }
        result := result + [ball];
        idx := idx + 1;
      }
    }
  }

  /** A formation with no black in it has no slot holding black. */
  lemma NoBlackAnywhere(s: seq<Slot>)
    requires Count(s, Black) == 0
    ensures forall k :: 0 <= k < |s| ==> s[k] != Black
  {
    forall k | 0 <= k < |s|
      ensures s[k] != Black
    {
      assert s[k] in multiset(s);
    }
  }

  /**
   * The colour types a formation ends with, for either set of slot indices: as
   * written, slot 3 is `undefined` and no slot is black; with the comments'
   * indices every slot is filled and slot 4 is the only black one.
   */
  lemma FormationTypes(slots: RackSlots, leftIsRed: bool, order: seq<Slot>, types: seq<Slot>)
    requires slots == AsWritten || slots == Intended
    requires FillsWith(Assigned(slots, leftIsRed), order, types)
    ensures |types| == 15
    ensures slots == AsWritten ==> types[3] == Undefined && forall k :: 0 <= k < 15 ==> types[k] != Black
    ensures slots == Intended ==> forall k :: 0 <= k < 15 ==> IsFilled(types[k]) && (types[k] == Black <==> k == 4)
  {
    if slots == AsWritten {
      AsWrittenFormation(leftIsRed);
    } else {
      IntendedFormation(leftIsRed);
      Game.TriFive();
    }
    assert |order| == |multiset(order)| == 0;
    assert order == [];
    if slots == AsWritten {
      NoBlackAnywhere(types);
    }
  }

  /**
   * `createJShapeRack`, from the coin and the shuffle draws to the fifteen
   * placed balls, for either set of slot indices. As written, the ball in row
   * 2, column 0 (slot 3) has colour type `undefined` and is drawn with the black
   * fallback colour, and no ball has the colour type black. With the comments'
   * indices every ball has a colour and the only black one is the ball in row
   * 2, column 1.
   */
  method CreateJShapeRack(slots: RackSlots, x0: real, coin: real, redDraws: seq<real>, yellowDraws: seq<real>,
                          jDraws: seq<real>, fillDraws: seq<real>)
    returns (rack: seq<RackBall>)
    requires slots == AsWritten || slots == Intended
    requires |redDraws| >= 1 && |yellowDraws| >= 1 && |jDraws| >= 2 && |fillDraws| >= 13
    requires UnitDraws(redDraws) && UnitDraws(yellowDraws) && UnitDraws(jDraws) && UnitDraws(fillDraws)
    ensures |rack| == 15
    ensures slots == AsWritten ==>
              rack[3] == RackBall(SlotPosition(x0, 2, 0), BallBlack, Undefined) &&
              forall k :: 0 <= k < |rack| ==> rack[k].colourType != Black
    ensures slots == Intended ==>
              rack[4] == RackBall(SlotPosition(x0, 2, 1), BallBlack, Black) &&
              forall k :: 0 <= k < |rack| ==> IsFilled(rack[k].colourType) && (rack[k].colourType == Black <==> k == 4)
  {
    ghost var order;
    var formation;
    formation, order := BuildFormation(slots, coin, redDraws, yellowDraws, jDraws, fillDraws);
    var types := formation[..];
    FormationTypes(slots, LeftIsRed(coin), order, types);
    rack := PlaceRack(types, x0);
    assert SlotRow(3) == 2 && SlotCol(3) == 0 && SlotRow(4) == 2 && SlotCol(4) == 1 by {
      Game.TriFive();
    }
  }
}
