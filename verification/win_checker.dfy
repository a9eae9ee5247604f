/**
  Win detection over a stored card (24 numbers, free centre not stored), the fixed
  pattern catalogue, the multi-card scan and the two tie-break policies.
 */
module WinChecker {
  import opened Wrappers

  /** The position the checker treats as always marked. */
  const FreeCell: nat := 12

  const LineHorizontal: seq<seq<nat>> := [[0, 1, 2, 3, 4], [5, 6, 7, 8, 9], [10, 11, 13, 14], [15, 16, 17, 18, 19], [20, 21, 22, 23]]
  const LineVertical: seq<seq<nat>> := [[0, 5, 10, 15, 20], [1, 6, 11, 16, 21], [2, 7, 17, 22], [3, 8, 13, 18, 23], [4, 9, 14, 19]]
  const Diagonal: seq<seq<nat>> := [[0, 6, 18], [4, 8, 16]]
  const FullCard: seq<seq<nat>> := [[0, 1, 2, 3, 4, 5, 6, 7, 8, 9, 10, 11, 13, 14, 15, 16, 17, 18, 19, 20, 21, 22, 23]]
  const FormatX: seq<seq<nat>> := [[0, 6, 8, 4, 18, 16]]
  const FormatL: seq<seq<nat>> := [[0, 5, 10, 15, 20, 21, 22, 23], [4, 9, 14, 19, 20, 21, 22, 23]]
  const FormatT: seq<seq<nat>> := [[0, 1, 2, 3, 4, 8, 13, 18, 23], [20, 21, 22, 23, 7, 2]]
  const FourCorners: seq<seq<nat>> := [[0, 4, 20, 23]]

  /** The catalogue, by name, with its variations in table order (positions as written). */
  function Variations(name: string): Option<seq<seq<nat>>>
  {
    if name == "line_horizontal" then Some(LineHorizontal)
    else if name == "line_vertical" then Some(LineVertical)
    else if name == "diagonal" then Some(Diagonal)
    else if name == "full_card" then Some(FullCard)
    else if name == "format_x" then Some(FormatX)
    else if name == "format_l" then Some(FormatL)
    else if name == "format_t" then Some(FormatT)
    else if name == "four_corners" then Some(FourCorners)
    else None
  }

  /** `getAvailablePatterns`: the catalogue's names in declaration order. */
  const PatternNames: seq<string> :=
    ["line_horizontal", "line_vertical", "diagonal", "full_card", "format_x", "format_l", "format_t", "four_corners"]

  /** The pattern list used when no `winning_patterns` setting exists. */
  const DefaultPatterns: seq<string> := ["line_horizontal", "line_vertical", "diagonal", "full_card"]

  datatype WinResult = NoWin | Win(pattern: string, variation: seq<nat>)

  /** A position counts as marked when it is the free cell or its card number was drawn. */
  predicate Marked(card: seq<int>, drawn: seq<int>, pos: nat) {
    pos == FreeCell || (pos < |card| && card[pos] in drawn)
  }

  predicate Satisfied(card: seq<int>, drawn: seq<int>, positions: seq<nat>) {
    forall k :: 0 <= k < |positions| ==> Marked(card, drawn, positions[k])
  }

  /** The index of the first satisfied variation, scanning in table order. */
  function FirstSatisfied(card: seq<int>, drawn: seq<int>, vs: seq<seq<nat>>): (r: Option<nat>)
    ensures r.Some? ==> r.value < |vs| && Satisfied(card, drawn, vs[r.value])
    ensures r.Some? ==> forall j :: 0 <= j < r.value ==> !Satisfied(card, drawn, vs[j])
    ensures r.None? ==> forall j :: 0 <= j < |vs| ==> !Satisfied(card, drawn, vs[j])
  {
    if vs == [] then None
    else if Satisfied(card, drawn, vs[0]) then Some(0)
    else match FirstSatisfied(card, drawn, vs[1..])
      case None => None
      case Some(i) => Some(i + 1)
  }

  /** Some variation of the named pattern is satisfied (false for unknown names). */
  predicate PatternSatisfied(card: seq<int>, drawn: seq<int>, name: string) {
    Variations(name).Some? && FirstSatisfied(card, drawn, Variations(name).value).Some?
  }

  /**
    `checkWin`: patterns are scanned in the caller's order, variations in table order;
    the first satisfied variation is reported and unknown names are skipped.
   */
  function CheckWin(card: seq<int>, drawn: seq<int>, active: seq<string>): WinResult
  {
    if active == [] then NoWin
    else match Variations(active[0])
      case None => CheckWin(card, drawn, active[1..])
      case Some(vs) =>
        match FirstSatisfied(card, drawn, vs)
        case Some(i) => Win(active[0], vs[i])
        case None => CheckWin(card, drawn, active[1..])
  }

  /**
    A reported win names an active catalogue pattern and one of its variations whose
    positions are all marked; no win is reported exactly when no active pattern is satisfied.
   */
  lemma {:induction false} CheckWinMeaning(card: seq<int>, drawn: seq<int>, active: seq<string>)
    ensures var r := CheckWin(card, drawn, active);
      && (r.Win? ==> r.pattern in active && Variations(r.pattern).Some?)
      && (r.Win? ==> r.variation in Variations(r.pattern).value && Satisfied(card, drawn, r.variation))
      && (r.NoWin? <==> forall i :: 0 <= i < |active| ==> !PatternSatisfied(card, drawn, active[i]))
  {
    if active != [] {
      CheckWinMeaning(card, drawn, active[1..]);
      assert forall i :: 1 <= i < |active| ==> active[i] == active[1..][i - 1];
      match Variations(active[0])
      case None =>
      case Some(vs) =>
        match FirstSatisfied(card, drawn, vs)
        case Some(i) =>
          assert vs[i] in vs;
        case None =>
    }
  }

  /**
    Priority: when `active[i]` is the first satisfied pattern, it is the one reported,
    with its first satisfied variation, whatever later patterns are also satisfied.
   */
  lemma {:induction false} CheckWinReportsFirstMatch(card: seq<int>, drawn: seq<int>, active: seq<string>, i: nat)
    requires i < |active| && PatternSatisfied(card, drawn, active[i])
    requires forall j :: 0 <= j < i ==> !PatternSatisfied(card, drawn, active[j])
    ensures var vs := Variations(active[i]).value;
      CheckWin(card, drawn, active) == Win(active[i], vs[FirstSatisfied(card, drawn, vs).value])
  {
    if i > 0 {
      assert !PatternSatisfied(card, drawn, active[0]);
      CheckWinReportsFirstMatch(card, drawn, active[1..], i - 1);
    }
  }

  /** Every position of the variation addresses a stored slot and is not the free cell. */
  predicate StoredSlots(v: seq<nat>) {
    forall k :: 0 <= k < |v| ==> v[k] < 24 && v[k] != FreeCell
  }

  lemma StoredSlotsTable(vs: seq<seq<nat>>)
    requires AllStored(vs)
    ensures forall v, p :: v in vs && p in v ==> p < 24 && p != FreeCell
  {
    forall v, p | v in vs && p in v
      ensures p < 24 && p != FreeCell
    {
      var i :| 0 <= i < |vs| && vs[i] == v;
      var k :| 0 <= k < |v| && v[k] == p;
      assert StoredSlots(vs[i]);
    }
  }

  /** Every variation of the table addresses stored slots only. */
  predicate AllStored(vs: seq<seq<nat>>) {
    forall i :: 0 <= i < |vs| ==> StoredSlots(vs[i])
  }

  lemma LinesStored()
    ensures AllStored(LineHorizontal) && AllStored(LineVertical)
  {
    assert StoredSlots(LineHorizontal[0]) && StoredSlots(LineHorizontal[1]) && StoredSlots(LineHorizontal[2]);
    assert StoredSlots(LineHorizontal[3]) && StoredSlots(LineHorizontal[4]);
    assert StoredSlots(LineVertical[0]) && StoredSlots(LineVertical[1]) && StoredSlots(LineVertical[2]);
    assert StoredSlots(LineVertical[3]) && StoredSlots(LineVertical[4]);
  }

  lemma ShapesStored()
    ensures AllStored(Diagonal) && AllStored(FormatX) && AllStored(FourCorners)
  {
    assert StoredSlots(Diagonal[0]) && StoredSlots(Diagonal[1]) && StoredSlots(FormatX[0]) && StoredSlots(FourCorners[0]);
  }

  lemma LongShapesStored()
    ensures AllStored(FullCard) && AllStored(FormatL) && AllStored(FormatT)
  {
    assert StoredSlots(FullCard[0]);
    assert StoredSlots(FormatL[0]) && StoredSlots(FormatL[1]) && StoredSlots(FormatT[0]) && StoredSlots(FormatT[1]);
  }

  /** Every variation of every catalogue pattern addresses a stored slot 0..23 and never the free cell. */
  lemma PatternsAvoidFreeCell(name: string)
    requires name in PatternNames
    ensures Variations(name).Some?
    ensures forall v, p :: v in Variations(name).value && p in v ==> p < 24 && p != FreeCell
  {
    LinesStored();
    ShapesStored();
    LongShapesStored();
    StoredSlotsTable(Variations(name).value);
  }

  /** Unknown names are exactly those outside the catalogue. */
  lemma CatalogueNames(name: string)
    ensures Variations(name).Some? <==> name in PatternNames
  {
  }

  /**
    Because no variation lists the free cell, on a 24-number card a variation is
    satisfied exactly when every listed slot's number has been drawn.
   */
  lemma SatisfiedMeansAllDrawn(card: seq<int>, drawn: seq<int>, name: string, v: seq<nat>)
    requires |card| == 24 && Variations(name).Some? && v in Variations(name).value
    ensures Satisfied(card, drawn, v) <==> forall k :: 0 <= k < |v| ==> v[k] < 24 && card[v[k]] in drawn
  {
    CatalogueNames(name);
    PatternsAvoidFreeCell(name);
    assert forall k :: 0 <= k < |v| ==> v[k] in v;
  }

  lemma SatisfiedMonotone(card: seq<int>, drawn: seq<int>, more: seq<int>, v: seq<nat>)
    requires forall x :: x in drawn ==> x in more
    requires Satisfied(card, drawn, v)
    ensures Satisfied(card, more, v)
  {
    forall k | 0 <= k < |v|
      ensures Marked(card, more, v[k])
    {
      assert Marked(card, drawn, v[k]);
      if v[k] != FreeCell {
        var x := card[v[k]];
        assert x in drawn;
        assert x in more;
      }
    }
  }

  /** Drawing more numbers never undoes a win. */
  lemma {:induction false} WinMonotoneInDraws(card: seq<int>, drawn: seq<int>, more: seq<int>, active: seq<string>)
    requires forall x :: x in drawn ==> x in more
    requires CheckWin(card, drawn, active).Win?
    ensures CheckWin(card, more, active).Win?
  {
    var w := CheckWin(card, drawn, active);
    CheckWinMeaning(card, drawn, active);
    CheckWinMeaning(card, more, active);
    var i :| 0 <= i < |active| && active[i] == w.pattern;
    var vs := Variations(active[i]).value;
    var k :| 0 <= k < |vs| && vs[k] == w.variation;
    SatisfiedMonotone(card, drawn, more, vs[k]);
    var f := FirstSatisfied(card, more, vs);
    assert f.Some?;
    assert PatternSatisfied(card, more, active[i]);
  }

  /** `validatePatterns`: every listed name belongs to the catalogue. */
  function ValidatePatterns(patterns: seq<string>): (r: bool)
    ensures r <==> forall i :: 0 <= i < |patterns| ==> patterns[i] in PatternNames
  {
    forall i :: 0 <= i < |patterns| ==> Variations(patterns[i]).Some?
  }

  // ---------------------------------------------------------------- multi-card scan

  datatype CardEntry = CardEntry(id: nat, code: string, numbers: seq<int>)

  datatype CardWin = CardWin(cardId: nat, cardCode: string, pattern: string, variation: seq<nat>)

  /** The entry `checkMultipleCards` pushes for a card whose check succeeded. */
  function WinEntry(c: CardEntry, drawn: seq<int>, active: seq<string>): CardWin
    requires CheckWin(c.numbers, drawn, active).Win?
  {
    var w := CheckWin(c.numbers, drawn, active);
    CardWin(c.id, c.code, w.pattern, w.variation)
  }

  /** `checkMultipleCards`: the winning cards, in input order. */
  function CheckMultipleCards(cards: seq<CardEntry>, drawn: seq<int>, active: seq<string>): (r: seq<CardWin>)
    ensures |r| <= |cards|
  {
    if cards == [] then []
    else
      var rest := CheckMultipleCards(cards[1..], drawn, active);
      if CheckWin(cards[0].numbers, drawn, active).Win? then [WinEntry(cards[0], drawn, active)] + rest
      else rest
  }

  predicate StrictlyIncreasing(idx: seq<nat>) {
    forall a, b :: 0 <= a < b < |idx| ==> idx[a] < idx[b]
  }

  /** Each `r[k]` is the entry of the winning card `cards[idx[k]]`. */
  predicate ListsEntries(idx: seq<nat>, r: seq<CardWin>, cards: seq<CardEntry>, drawn: seq<int>, active: seq<string>) {
    && |idx| == |r|
    && (forall k :: 0 <= k < |idx| ==>
          (idx[k] < |cards| && CheckWin(cards[idx[k]].numbers, drawn, active).Win?
           && r[k] == WinEntry(cards[idx[k]], drawn, active)))
  }

  /** Every winning card is listed in `idx`. */
  predicate CoversWinners(idx: seq<nat>, cards: seq<CardEntry>, drawn: seq<int>, active: seq<string>) {
    forall i :: 0 <= i < |cards| && CheckWin(cards[i].numbers, drawn, active).Win? ==> i in idx
  }

  /** `idx` lists, in increasing order, exactly the winning cards, and `r[k]` is the entry for `cards[idx[k]]`. */
  predicate FiltersWinners(idx: seq<nat>, r: seq<CardWin>, cards: seq<CardEntry>, drawn: seq<int>, active: seq<string>) {
    StrictlyIncreasing(idx) && ListsEntries(idx, r, cards, drawn, active) && CoversWinners(idx, cards, drawn, active)
  }

  function Shift(idx: seq<nat>): (r: seq<nat>)
    ensures |r| == |idx| && forall k :: 0 <= k < |idx| ==> r[k] == idx[k] + 1
  {
    seq(|idx|, k requires 0 <= k < |idx| => idx[k] + 1)
  }

  lemma ShiftIncreasing(idx: seq<nat>)
    requires StrictlyIncreasing(idx)
    ensures StrictlyIncreasing(Shift(idx)) && StrictlyIncreasing([0] + Shift(idx))
  {
    var ix := [0] + Shift(idx);
    forall a, b | 0 <= a < b < |ix|
      ensures ix[a] < ix[b]
    {
      if a > 0 {
        assert ix[a] == idx[a - 1] + 1 && ix[b] == idx[b - 1] + 1;
      }
    }
  }

  lemma ShiftLists(idx: seq<nat>, rest: seq<CardWin>, cards: seq<CardEntry>, drawn: seq<int>, active: seq<string>)
    requires cards != [] && ListsEntries(idx, rest, cards[1..], drawn, active)
    ensures ListsEntries(Shift(idx), rest, cards, drawn, active)
  {
    var sh := Shift(idx);
    forall k | 0 <= k < |sh|
      ensures sh[k] < |cards| && cards[sh[k]] == cards[1..][idx[k]]
    {
    }
  }

  lemma ShiftCovers(idx: seq<nat>, cards: seq<CardEntry>, drawn: seq<int>, active: seq<string>)
    requires cards != [] && CheckWin(cards[0].numbers, drawn, active).NoWin?
    requires CoversWinners(idx, cards[1..], drawn, active)
    ensures CoversWinners(Shift(idx), cards, drawn, active)
  {
    var sh := Shift(idx);
    forall i | 0 <= i < |cards| && CheckWin(cards[i].numbers, drawn, active).Win?
      ensures i in sh
    {
      assert i > 0 && cards[1..][i - 1] == cards[i];
      var k :| 0 <= k < |idx| && idx[k] == i - 1;
      assert sh[k] == i;
    }
  }

  lemma ConsCovers(idx: seq<nat>, cards: seq<CardEntry>, drawn: seq<int>, active: seq<string>)
    requires cards != [] && CoversWinners(idx, cards[1..], drawn, active)
    ensures CoversWinners([0] + Shift(idx), cards, drawn, active)
  {
    var ix := [0] + Shift(idx);
    forall i | 0 <= i < |cards| && CheckWin(cards[i].numbers, drawn, active).Win?
      ensures i in ix
    {
      if i > 0 {
        assert cards[1..][i - 1] == cards[i];
        var k :| 0 <= k < |idx| && idx[k] == i - 1;
        assert ix[k + 1] == i;
      }
    }
  }

  lemma ConsListsAt(sh: seq<nat>, head: CardWin, rest: seq<CardWin>, cards: seq<CardEntry>, drawn: seq<int>, active: seq<string>, k: nat)
    requires ListsEntries(sh, rest, cards, drawn, active)
    requires 0 < k <= |sh|
    ensures ([0] + sh)[k] < |cards| && CheckWin(cards[([0] + sh)[k]].numbers, drawn, active).Win?
    ensures ([head] + rest)[k] == WinEntry(cards[([0] + sh)[k]], drawn, active)
  {
    assert ([0] + sh)[k] == sh[k - 1] && ([head] + rest)[k] == rest[k - 1];
  }

  lemma ConsLists(idx: seq<nat>, rest: seq<CardWin>, cards: seq<CardEntry>, drawn: seq<int>, active: seq<string>)
    requires cards != [] && CheckWin(cards[0].numbers, drawn, active).Win?
    requires ListsEntries(Shift(idx), rest, cards, drawn, active)
    ensures ListsEntries([0] + Shift(idx), [WinEntry(cards[0], drawn, active)] + rest, cards, drawn, active)
  {
    var head := WinEntry(cards[0], drawn, active);
    var ix := [0] + Shift(idx);
    forall k | 0 <= k < |ix|
      ensures ix[k] < |cards| && CheckWin(cards[ix[k]].numbers, drawn, active).Win?
      ensures ([head] + rest)[k] == WinEntry(cards[ix[k]], drawn, active)
    {
      if k > 0 {
        ConsListsAt(Shift(idx), head, rest, cards, drawn, active, k);
      }
    }
  }

  /**
    The scan is a filter: its result lists, in input order, one entry per winning card,
    carrying that card's `CheckWin` pattern and variation, and no entry for any other card.
   */
  lemma {:induction false} CheckMultipleCardsIsFilter(cards: seq<CardEntry>, drawn: seq<int>, active: seq<string>)
    returns (idx: seq<nat>)
    ensures FiltersWinners(idx, CheckMultipleCards(cards, drawn, active), cards, drawn, active)
  {
    if cards == [] {
      idx := [];
    } else {
      var idx0 := CheckMultipleCardsIsFilter(cards[1..], drawn, active);
      var rest := CheckMultipleCards(cards[1..], drawn, active);
      ShiftLists(idx0, rest, cards, drawn, active);
      ShiftIncreasing(idx0);
      if CheckWin(cards[0].numbers, drawn, active).Win? {
        ConsLists(idx0, rest, cards, drawn, active);
        ConsCovers(idx0, cards, drawn, active);
        idx := [0] + Shift(idx0);
      } else {
        ShiftCovers(idx0, cards, drawn, active);
        idx := Shift(idx0);
      }
    }
  }

  // ---------------------------------------------------------------- "pedra" tie-break

  datatype PedraPick = PedraPick(card: CardEntry, tiebreakerNumber: int, difference: nat)

  function Distance(n: int, t: int): nat {
    if n >= t then n - t else t - n
  }

  /** `Math.min(...distances)` for a non-empty list of numbers. */
  function MinDistance(nums: seq<int>, t: int): nat
    requires nums != []
  {
    if |nums| == 1 then Distance(nums[0], t)
    else
      var rest := MinDistance(nums[1..], t);
      if Distance(nums[0], t) <= rest then Distance(nums[0], t) else rest
  }

  /** The minimum is the distance of one of the numbers and no number is closer. */
  lemma {:induction false} MinDistanceIsMin(nums: seq<int>, t: int)
    requires nums != []
    ensures forall k :: 0 <= k < |nums| ==> MinDistance(nums, t) <= Distance(nums[k], t)
    ensures exists k :: 0 <= k < |nums| && MinDistance(nums, t) == Distance(nums[k], t)
  {
    if |nums| == 1 {
      assert MinDistance(nums, t) == Distance(nums[0], t);
    } else {
      MinDistanceIsMin(nums[1..], t);
      assert forall k :: 1 <= k < |nums| ==> nums[k] == nums[1..][k - 1];
      if Distance(nums[0], t) > MinDistance(nums[1..], t) {
        var k :| 0 <= k < |nums[1..]| && MinDistance(nums[1..], t) == Distance(nums[1..][k], t);
        assert nums[k + 1] == nums[1..][k];
      } else {
        assert MinDistance(nums, t) == Distance(nums[0], t);
      }
    }
  }

  /** `distances.indexOf(d)`: the first index whose distance is `d`. */
  function FirstIndexAt(nums: seq<int>, t: int, d: nat): (k: nat)
    requires exists k :: 0 <= k < |nums| && Distance(nums[k], t) == d
    ensures k < |nums| && Distance(nums[k], t) == d
    ensures forall j :: 0 <= j < k ==> Distance(nums[j], t) != d
  {
    if Distance(nums[0], t) == d then 0
    else
      assert exists k :: 0 <= k < |nums[1..]| && Distance(nums[1..][k], t) == d by {
        var k :| 0 <= k < |nums| && Distance(nums[k], t) == d;
        assert k > 0 && nums[1..][k - 1] == nums[k];
      }
      1 + FirstIndexAt(nums[1..], t, d)
  }

  /** The number of a card closest to the tiebreaker, first in card order on ties. */
  function ClosestNumber(nums: seq<int>, t: int): int
    requires nums != []
  {
    MinDistanceIsMin(nums, t);
    nums[FirstIndexAt(nums, t, MinDistance(nums, t))]
  }

  /**
    Among the first `n` winners, `winners[c]` is the pick: it has numbers, every
    earlier card with numbers is strictly farther and no later one is closer.
   */
  predicate PicksAt(winners: seq<CardEntry>, t: int, n: nat, c: nat, p: PedraPick) {
    && c < n <= |winners| && winners[c].numbers != []
    && p == PedraPick(winners[c], ClosestNumber(winners[c].numbers, t), MinDistance(winners[c].numbers, t))
    && (forall j :: 0 <= j < c && winners[j].numbers != [] ==> MinDistance(winners[j].numbers, t) > p.difference)
    && (forall j :: c < j < n && winners[j].numbers != [] ==> MinDistance(winners[j].numbers, t) >= p.difference)
  }

  /** A card that is not strictly closer leaves the pick in place. */
  lemma KeepPick(winners: seq<CardEntry>, t: int, n: nat, c: nat, p: PedraPick)
    requires PicksAt(winners, t, n, c, p) && n < |winners|
    requires winners[n].numbers != [] ==> MinDistance(winners[n].numbers, t) >= p.difference
    ensures PicksAt(winners, t, n + 1, c, p)
  {
  }

  /** A strictly closer card becomes the pick. */
  lemma TakePick(winners: seq<CardEntry>, t: int, n: nat, c: nat, p: PedraPick)
    requires PicksAt(winners, t, n, c, p) && n < |winners| && winners[n].numbers != []
    requires MinDistance(winners[n].numbers, t) < p.difference
    ensures var w := winners[n];
      PicksAt(winners, t, n + 1, n, PedraPick(w, ClosestNumber(w.numbers, t), MinDistance(w.numbers, t)))
  {
  }

  /** The first card with numbers is the pick when no earlier card has any. */
  lemma FirstPick(winners: seq<CardEntry>, t: int, n: nat)
    requires n < |winners| && winners[n].numbers != []
    requires forall j :: 0 <= j < n ==> winners[j].numbers == []
    ensures var w := winners[n];
      PicksAt(winners, t, n + 1, n, PedraPick(w, ClosestNumber(w.numbers, t), MinDistance(w.numbers, t)))
  {
  }

  /**
    `resolveTiebreakerPedra`: scans the winners keeping the one with the strictly
    smallest distance so far; cards without numbers (distance Infinity) are never chosen.
   */
  method ResolveTiebreakerPedra(winners: seq<CardEntry>, t: int) returns (r: Option<PedraPick>)
    ensures r.None? <==> forall i :: 0 <= i < |winners| ==> winners[i].numbers == []
    ensures r.Some? ==> exists i :: PicksAt(winners, t, |winners|, i, r.value)
  {
    r := None;
    var chosen: nat := 0;
    var i := 0;
    while i < |winners|
      invariant 0 <= i <= |winners|
      invariant r.None? <==> forall j :: 0 <= j < i ==> winners[j].numbers == []
      invariant r.Some? ==> PicksAt(winners, t, i, chosen, r.value)
    {
      var w := winners[i];
      if w.numbers != [] {
        var d := MinDistance(w.numbers, t);
        if r.None? {
          FirstPick(winners, t, i);
          r := Some(PedraPick(w, ClosestNumber(w.numbers, t), d));
          chosen := i;
        } else if d < r.value.difference {
          TakePick(winners, t, i, chosen, r.value);
          r := Some(PedraPick(w, ClosestNumber(w.numbers, t), d));
          chosen := i;
        } else {
          KeepPick(winners, t, i, chosen, r.value);
        }
      } else if r.Some? {
        KeepPick(winners, t, i, chosen, r.value);
      }
      i := i + 1;
    }
    assert r.Some? ==> PicksAt(winners, t, |winners|, chosen, r.value);
  }

  // ---------------------------------------------------------------- equal division

  datatype DividedPrize = DividedPrize(card: CardEntry, prizeAmount: real, divided: bool)

  /** `resolveTiebreakerDivision`: every winner gets an equal share of the prize. */
  function ResolveTiebreakerDivision(winners: seq<CardEntry>, totalPrize: real): (r: seq<DividedPrize>)
    ensures |r| == |winners|
    ensures forall i :: 0 <= i < |r| ==> r[i].card == winners[i] && r[i].divided
    ensures forall i :: 0 <= i < |r| ==> r[i].prizeAmount * (|winners| as real) == totalPrize
  {
    if winners == [] then []
    else
      var share := totalPrize / (|winners| as real);
      seq(|winners|, i requires 0 <= i < |winners| => DividedPrize(winners[i], share, true))
  }

  function TotalPaid(r: seq<DividedPrize>): real {
    if r == [] then 0.0 else r[0].prizeAmount + TotalPaid(r[1..])
  }

  lemma {:induction false} TotalOfEqualShares(r: seq<DividedPrize>, share: real)
    requires forall i :: 0 <= i < |r| ==> r[i].prizeAmount == share
    ensures TotalPaid(r) == (|r| as real) * share
  {
    if r != [] {
      TotalOfEqualShares(r[1..], share);
    }
  }

  /** The shares of a non-empty division add up to the whole prize. */
  lemma DivisionPaysWholePrize(winners: seq<CardEntry>, totalPrize: real)
    requires winners != []
    ensures TotalPaid(ResolveTiebreakerDivision(winners, totalPrize)) == totalPrize
  {
    var r := ResolveTiebreakerDivision(winners, totalPrize);
    TotalOfEqualShares(r, totalPrize / (|winners| as real));
  }

  // ---------------------------------------------------------------- documented scenarios

  /** A first row fully drawn wins `line_horizontal`; one number short does not. */
  lemma FirstRowScenario(card: seq<int>)
    requires |card| == 24 && card[..5] == [7, 20, 35, 50, 70]
    requires forall k :: 5 <= k < 24 ==> card[k] !in [7, 20, 35, 50, 70]
    ensures CheckWin(card, [7, 20, 35, 50, 70], ["line_horizontal"]) == Win("line_horizontal", [0, 1, 2, 3, 4])
    ensures CheckWin(card, [7, 20, 35, 50], ["line_horizontal"]) == NoWin
  {
    var vs := LineHorizontal;
    assert Variations("line_horizontal") == Some(vs);
    assert card[0] == 7 && card[1] == 20 && card[2] == 35 && card[3] == 50 && card[4] == 70;
    assert Satisfied(card, [7, 20, 35, 50, 70], vs[0]);
    assert FirstSatisfied(card, [7, 20, 35, 50, 70], vs) == Some(0);
    RowOneShort(card, vs);
    assert FirstSatisfied(card, [7, 20, 35, 50], vs).None?;
  }

  lemma RowOneShort(card: seq<int>, vs: seq<seq<nat>>)
    requires |card| == 24 && card[..5] == [7, 20, 35, 50, 70]
    requires forall k :: 5 <= k < 24 ==> card[k] !in [7, 20, 35, 50, 70]
    requires vs == LineHorizontal
    ensures forall i :: 0 <= i < |vs| ==> !Satisfied(card, [7, 20, 35, 50], vs[i])
  {
    assert card[4] == 70;
    assert !Marked(card, [7, 20, 35, 50], 4);
    assert !Marked(card, [7, 20, 35, 50], 5);
    assert !Marked(card, [7, 20, 35, 50], 10);
    assert !Marked(card, [7, 20, 35, 50], 15);
    assert !Marked(card, [7, 20, 35, 50], 20);
    assert vs[0][4] == 4 && vs[1][0] == 5 && vs[2][0] == 10 && vs[3][0] == 15 && vs[4][0] == 20;
  }

}
