/**
  Bingo cards: numbers drawn column by column without repetition, laid out in the
  24-entry array the database stores (the centre of the 5x5 card has no entry), the
  5x5 grid view of that array, and the insertion of a purchase's cards.
  `Math.random()` is replaced by explicit pick sequences.
 */
module CardGenerator {
  import opened Wrappers
  import opened Store
  import Keys
  import CodeGenerator

  // ---------------------------------------------------------------- unique numbers

  /** Pairwise different entries. */
  predicate Distinct(s: seq<int>) {
    forall i, j :: 0 <= i < j < |s| ==> s[i] != s[j]
  }

  /** Strictly ascending, stated on neighbours. */
  predicate Increasing(s: seq<int>) {
    forall i :: 0 < i < |s| ==> s[i - 1] < s[i]
  }

  /** `[lo, lo + 1, ..., hi]`. */
  function Range(lo: int, hi: int): (r: seq<int>)
    ensures |r| == if lo <= hi then hi - lo + 1 else 0
    ensures forall k :: 0 <= k < |r| ==> r[k] == lo + k
    decreases hi - lo
  {
    if lo > hi then [] else [lo] + Range(lo + 1, hi)
  }

  lemma RangeDistinct(lo: int, hi: int)
    ensures Distinct(Range(lo, hi))
  {
  }

  /** The pick for step `k`; a short pick sequence reads as zeros. */
  function Pick(picks: seq<nat>, k: nat): nat {
    if k < |picks| then picks[k] else 0
  }

  /** `s` without the entry at index `i` (`Array.prototype.splice(i, 1)`). */
  function RemoveAt(s: seq<int>, i: nat): (r: seq<int>)
    requires i < |s|
    ensures |r| == |s| - 1
    ensures forall y :: y in r ==> y in s
  {
    s[..i] + s[i + 1..]
  }

  lemma RemoveAtDistinct(s: seq<int>, i: nat)
    requires i < |s| && Distinct(s)
    ensures Distinct(RemoveAt(s, i))
    ensures s[i] !in RemoveAt(s, i)
  {
    var r := RemoveAt(s, i);
    forall a, b | 0 <= a < b < |r|
      ensures r[a] != r[b]
    {
      var a' := if a < i then a else a + 1;
      var b' := if b < i then b else b + 1;
      assert r[a] == s[a'] && r[b] == s[b'];
    }
    forall k | 0 <= k < |r|
      ensures r[k] != s[i]
    {
      var k' := if k < i then k else k + 1;
      assert r[k] == s[k'];
    }
  }

  /**
    The drawing loop of `generateUniqueNumbers`: each step takes the available
    number at index `pick % |available|` and removes it from the pool.
   */
  function Choose(available: seq<int>, picks: seq<nat>, count: nat): (r: seq<int>)
    requires count <= |available|
    requires Distinct(available)
    ensures |r| == count
    ensures forall y :: y in r ==> y in available
    ensures Distinct(r)
    decreases count
  {
    if count == 0 then []
    else
      var i := Pick(picks, 0) % |available|;
      var rest := RemoveAt(available, i);
      RemoveAtDistinct(available, i);
      var tail := Choose(rest, if picks == [] then [] else picks[1..], count - 1);
      assert available[i] !in tail;
      [available[i]] + tail
  }

  /** Inserts `x` into an ascending sequence that does not hold it. */
  function Insert(x: int, s: seq<int>): (r: seq<int>)
    requires Increasing(s) && x !in s
    ensures Increasing(r)
    ensures |r| == |s| + 1
    ensures forall y :: y in r <==> y == x || y in s
    ensures r[0] == x || r[0] == s[0]
  {
    if s == [] then [x]
    else if x < s[0] then [x] + s
    else
      var tail := Insert(x, s[1..]);
      assert s == [s[0]] + s[1..];
      [s[0]] + tail
  }

  /** `numbers.sort((a, b) => a - b)` on pairwise different numbers. */
  function SortAscending(s: seq<int>): (r: seq<int>)
    requires Distinct(s)
    ensures Increasing(r)
    ensures |r| == |s|
    ensures forall y :: y in r <==> y in s
  {
    if s == [] then []
    else
      assert s == [s[0]] + s[1..];
      var tail := SortAscending(s[1..]);
      Insert(s[0], tail)
  }

  /**
    `generateUniqueNumbers(lo, hi, count)`: `count` different numbers of `lo..hi`,
    in ascending order. The card generator only asks for at most as many numbers
    as the range holds.
   */
  function GenerateUniqueNumbers(lo: int, hi: int, count: nat, picks: seq<nat>): (r: seq<int>)
    requires count <= hi - lo + 1
    ensures |r| == count
    ensures Increasing(r)
    ensures forall y :: y in r ==> lo <= y <= hi
    ensures forall y :: y in r <==> y in Choose(Range(lo, hi), picks, count)
  {
    RangeDistinct(lo, hi);
    SortAscending(Choose(Range(lo, hi), picks, count))
  }

  lemma {:induction false} IncreasingOrdered(s: seq<int>, i: nat, j: nat)
    requires Increasing(s) && i < j < |s|
    ensures s[i] < s[j]
    decreases j - i
  {
    if i + 1 < j {
      IncreasingOrdered(s, i + 1, j);
    }
  }

  /** A sequence in strictly ascending order repeats no number. */
  lemma IncreasingDistinct(s: seq<int>)
    requires Increasing(s)
    ensures Distinct(s)
  {
    forall i, j | 0 <= i < j < |s|
      ensures s[i] != s[j]
    {
      IncreasingOrdered(s, i, j);
    }
  }

  // ---------------------------------------------------------------- card layout

  /** The five columns S, O, R, T, E; column R has four numbers because its centre is free. */
  datatype Columns = Columns(s: seq<int>, o: seq<int>, r: seq<int>, t: seq<int>, e: seq<int>)

  predicate WellShaped(c: Columns) {
    |c.s| == 5 && |c.o| == 5 && |c.r| == 4 && |c.t| == 5 && |c.e| == 5
  }

  function Column(c: Columns, k: nat): seq<int>
    requires k < 5
  {
    match k
    case 0 => c.s
    case 1 => c.o
    case 2 => c.r
    case 3 => c.t
    case _ => c.e
  }

  /** Row-major layout of the stored array; row 3 has no column-R entry. */
  function Assemble(c: Columns): (numbers: seq<int>)
    requires WellShaped(c)
    ensures |numbers| == 24
  {
    [c.s[0], c.o[0], c.r[0], c.t[0], c.e[0],
     c.s[1], c.o[1], c.r[1], c.t[1], c.e[1],
     c.s[2], c.o[2], c.t[2], c.e[2],
     c.s[3], c.o[3], c.r[2], c.t[3], c.e[3],
     c.s[4], c.o[4], c.r[3], c.t[4], c.e[4]]
  }

  /** The column (0 = S ... 4 = E) of each array position. */
  const ColumnAt: seq<nat> := [0, 1, 2, 3, 4, 0, 1, 2, 3, 4, 0, 1, 3, 4, 0, 1, 2, 3, 4, 0, 1, 2, 3, 4]
  /** The index inside its column of each array position. */
  const IndexAt: seq<nat> := [0, 0, 0, 0, 0, 1, 1, 1, 1, 1, 2, 2, 2, 2, 3, 3, 2, 3, 3, 4, 4, 3, 4, 4]

  /** Each position of the array holds the number its column-and-index entry names. */
  lemma AssembleLayout(c: Columns, p: nat)
    requires WellShaped(c) && p < 24
    ensures IndexAt[p] < |Column(c, ColumnAt[p])|
    ensures Assemble(c)[p] == Column(c, ColumnAt[p])[IndexAt[p]]
  {
  }

  /**
    The array position of a column's entry: row by row, the centre column's entries
    below the free cell one row lower, and every cell after the centre one place back.
   */
  function PositionOf(column: nat, index: nat): int {
    var row := if column == 2 && index >= 2 then index + 1 else index;
    var cell := 5 * row + column;
    if cell > 12 then cell - 1 else cell
  }

  /** Each position is recovered from its column and index. */
  lemma PositionOfLayout(p: nat)
    requires p < 24
    ensures PositionOf(ColumnAt[p], IndexAt[p]) == p
  {
  }

  /** No two array positions name the same entry of the same column. */
  lemma LayoutInjective(p: nat, q: nat)
    requires p < 24 && q < 24 && p != q
    ensures ColumnAt[p] != ColumnAt[q] || IndexAt[p] != IndexAt[q]
  {
    PositionOfLayout(p);
    PositionOfLayout(q);
  }

  /** Column k of a card holds numbers `15k + 1 .. 15k + 15`. */
  function ColumnLow(k: nat): int { 15 * k + 1 }
  function ColumnHigh(k: nat): int { 15 * k + 15 }

  /** A stored card: 24 different numbers, each in the range of the column it sits in. */
  predicate ValidCard(numbers: seq<int>) {
    && |numbers| == 24
    && Distinct(numbers)
    && forall p :: 0 <= p < 24 ==> ColumnLow(ColumnAt[p]) <= numbers[p] <= ColumnHigh(ColumnAt[p])
  }

  /** The pick sequences for the five columns of one card. */
  datatype ColumnPicks = ColumnPicks(s: seq<nat>, o: seq<nat>, r: seq<nat>, t: seq<nat>, e: seq<nat>)

  /** An ascending column whose numbers lie in the range of column k. */
  predicate ColumnInRange(col: seq<int>, k: nat) {
    Increasing(col) && forall y :: y in col ==> ColumnLow(k) <= y <= ColumnHigh(k)
  }

  predicate ColumnsInRange(c: Columns) {
    && ColumnInRange(c.s, 0) && ColumnInRange(c.o, 1) && ColumnInRange(c.r, 2)
    && ColumnInRange(c.t, 3) && ColumnInRange(c.e, 4)
  }

  lemma ColumnAtInRange(c: Columns, k: nat)
    requires ColumnsInRange(c) && k < 5
    ensures ColumnInRange(Column(c, k), k)
  {
  }

  /** Column k drawn from its own fifteen numbers: four for the centre column, five elsewhere. */
  function DrawColumn(k: nat, picks: seq<nat>): (col: seq<int>)
    requires k < 5
    ensures |col| == if k == 2 then 4 else 5
    ensures ColumnInRange(col, k)
  {
    GenerateUniqueNumbers(ColumnLow(k), ColumnHigh(k), if k == 2 then 4 else 5, picks)
  }

  function DrawColumns(p: ColumnPicks): (c: Columns)
    ensures WellShaped(c)
    ensures ColumnsInRange(c)
  {
    Columns(DrawColumn(0, p.s), DrawColumn(1, p.o), DrawColumn(2, p.r), DrawColumn(3, p.t), DrawColumn(4, p.e))
  }

  /** The numbers `generateCard` stores for one set of column picks. */
  function CardNumbers(p: ColumnPicks): (numbers: seq<int>)
    ensures |numbers| == 24
  {
    Assemble(DrawColumns(p))
  }

  /** Position p of an assembled card lies in the range of the column it sits in. */
  lemma AssembledInRange(c: Columns, p: nat)
    requires WellShaped(c) && ColumnsInRange(c) && p < 24
    ensures ColumnLow(ColumnAt[p]) <= Assemble(c)[p] <= ColumnHigh(ColumnAt[p])
  {
    AssembleLayout(c, p);
    ColumnAtInRange(c, ColumnAt[p]);
    assert Assemble(c)[p] in Column(c, ColumnAt[p]);
  }

  /** Two positions of an assembled card hold different numbers. */
  lemma AssembledDistinct(c: Columns, a: nat, b: nat)
    requires WellShaped(c) && ColumnsInRange(c) && a < b < 24
    ensures Assemble(c)[a] != Assemble(c)[b]
  {
    AssembledInRange(c, a);
    AssembledInRange(c, b);
    AssembleLayout(c, a);
    AssembleLayout(c, b);
    LayoutInjective(a, b);
    if ColumnAt[a] == ColumnAt[b] {
      ColumnAtInRange(c, ColumnAt[a]);
      IncreasingDistinct(Column(c, ColumnAt[a]));
    }
  }

  /** Every assembled card of well-drawn columns is valid. */
  lemma AssembledValid(c: Columns)
    requires WellShaped(c) && ColumnsInRange(c)
    ensures ValidCard(Assemble(c))
  {
    forall p | 0 <= p < 24
      ensures ColumnLow(ColumnAt[p]) <= Assemble(c)[p] <= ColumnHigh(ColumnAt[p])
    {
      AssembledInRange(c, p);
    }
    forall a, b | 0 <= a < b < |Assemble(c)|
      ensures Assemble(c)[a] != Assemble(c)[b]
    {
      AssembledDistinct(c, a, b);
    }
  }

  /** Every generated card is valid: 24 different numbers, each in its column's range. */
  lemma CardNumbersValid(p: ColumnPicks)
    ensures ValidCard(CardNumbers(p))
  {
    AssembledValid(DrawColumns(p));
  }

  /**
    The array index the win checker treats as the always-marked centre holds column
    T's middle number, an ordinary number of the card.
   */
  lemma CentreIndexHoldsColumnT(c: Columns)
    requires WellShaped(c) && ColumnsInRange(c)
    ensures ColumnAt[12] == 3
    ensures Assemble(c)[12] == c.t[2]
    ensures 46 <= Assemble(c)[12] <= 60
  {
    AssembledInRange(c, 12);
  }

  // ---------------------------------------------------------------- grid view

  datatype Cell = Num(n: int) | Free

  datatype Grid = Grid(s: seq<Cell>, o: seq<Cell>, r: seq<Cell>, t: seq<Cell>, e: seq<Cell>)

  /** `convertToGrid`: the five columns of the card, with the free centre in column R. */
  function ConvertToGrid(numbers: seq<int>): (g: Grid)
    requires |numbers| == 24
    ensures |g.s| == 5 && |g.o| == 5 && |g.r| == 5 && |g.t| == 5 && |g.e| == 5
  {
    Grid(
      [Num(numbers[0]), Num(numbers[5]), Num(numbers[10]), Num(numbers[14]), Num(numbers[19])],
      [Num(numbers[1]), Num(numbers[6]), Num(numbers[11]), Num(numbers[15]), Num(numbers[20])],
      [Num(numbers[2]), Num(numbers[7]), Free, Num(numbers[16]), Num(numbers[21])],
      [Num(numbers[3]), Num(numbers[8]), Num(numbers[12]), Num(numbers[17]), Num(numbers[22])],
      [Num(numbers[4]), Num(numbers[9]), Num(numbers[13]), Num(numbers[18]), Num(numbers[23])])
  }

  /** The grid of an assembled card shows each column's numbers top to bottom around the free centre. */
  lemma GridShowsColumns(c: Columns)
    requires WellShaped(c)
    ensures var g := ConvertToGrid(Assemble(c));
      && g.s == seq(5, i requires 0 <= i < 5 => Num(c.s[i]))
      && g.o == seq(5, i requires 0 <= i < 5 => Num(c.o[i]))
      && g.r == [Num(c.r[0]), Num(c.r[1]), Free, Num(c.r[2]), Num(c.r[3])]
      && g.t == seq(5, i requires 0 <= i < 5 => Num(c.t[i]))
      && g.e == seq(5, i requires 0 <= i < 5 => Num(c.e[i]))
  {
  }

  predicate WellShapedGrid(g: Grid) {
    |g.s| == 5 && |g.o| == 5 && |g.r| == 5 && |g.t| == 5 && |g.e| == 5
  }

  /**
    `convertToArray` as written: it reads column R at grid rows 0, 1, 2 and 3,
    so it picks up the free centre and never reads row 4 of column R.
   */
  function ConvertToArray(g: Grid): (cells: seq<Cell>)
    requires WellShapedGrid(g)
    ensures |cells| == 24
    ensures cells[16] == g.r[2] && cells[21] == g.r[3]
    ensures forall i :: 0 <= i < 24 && i != 16 && i != 21 ==> cells[i] == ConvertToArrayFixed(g)[i]
  {
    [g.s[0], g.o[0], g.r[0], g.t[0], g.e[0],
     g.s[1], g.o[1], g.r[1], g.t[1], g.e[1],
     g.s[2], g.o[2], g.t[2], g.e[2],
     g.s[3], g.o[3], g.r[2], g.t[3], g.e[3],
     g.s[4], g.o[4], g.r[3], g.t[4], g.e[4]]
  }

  /** Converting a card to the grid and back as written puts the free cell in the array and loses a number. */
  lemma ConvertToArrayLosesColumnR(numbers: seq<int>)
    requires |numbers| == 24
    ensures ConvertToArray(ConvertToGrid(numbers))[16] == Free
    ensures ConvertToArray(ConvertToGrid(numbers))[21] == Num(numbers[16])
    ensures ConvertToArray(ConvertToGrid(numbers)) != seq(24, i requires 0 <= i < 24 => Num(numbers[i]))
    ensures forall i :: 0 <= i < 24 && i != 16 && i != 21 ==> ConvertToArray(ConvertToGrid(numbers))[i] == Num(numbers[i])
  {
    var back := ConvertToArray(ConvertToGrid(numbers));
    var cells := seq(24, i requires 0 <= i < 24 => Num(numbers[i]));
    ConvertToArrayFixedRoundTrip(numbers);
    assert back[16] != cells[16];
  }

  /** The inverse of `ConvertToGrid`: column R is read at rows 0, 1, 3 and 4, skipping the centre. */
  function ConvertToArrayFixed(g: Grid): (cells: seq<Cell>)
    requires WellShapedGrid(g)
    ensures |cells| == 24
  {
    [g.s[0], g.o[0], g.r[0], g.t[0], g.e[0],
     g.s[1], g.o[1], g.r[1], g.t[1], g.e[1],
     g.s[2], g.o[2], g.t[2], g.e[2],
     g.s[3], g.o[3], g.r[3], g.t[3], g.e[3],
     g.s[4], g.o[4], g.r[4], g.t[4], g.e[4]]
  }

  /** The corrected conversion undoes `ConvertToGrid` exactly. */
  lemma ConvertToArrayFixedRoundTrip(numbers: seq<int>)
    requires |numbers| == 24
    ensures ConvertToArrayFixed(ConvertToGrid(numbers)) == seq(24, i requires 0 <= i < 24 => Num(numbers[i]))
  {
  }

  /** ... and the grid of the array it returns is the grid it was given. */
  lemma ConvertToGridFixedRoundTrip(g: Grid)
    requires WellShapedGrid(g) && g.r[2] == Free
    requires forall i :: 0 <= i < 24 ==> ConvertToArrayFixed(g)[i].Num?
    ensures ConvertToGrid(seq(24, i requires 0 <= i < 24 => ConvertToArrayFixed(g)[i].n)) == g
  {
  }

  // ---------------------------------------------------------------- inserting cards

  /** The randomness one `generateCard` call consumes: column picks and the successive code attempts. */
  datatype CardDraw = CardDraw(columns: ColumnPicks, codeAttempts: seq<seq<nat>>)

  /** The codes of the stored cards, and nothing else. */
  function CodesInUse(db: Db): (codes: set<string>)
    ensures forall id :: id in db.cards ==> db.cards[id].code in codes
    ensures forall c :: c in codes ==> exists id :: id in db.cards && db.cards[id].code == c
  {
    set id | id in db.cards :: db.cards[id].code
  }

  /** No two stored cards share a code. */
  predicate UniqueCodes(db: Db) {
    forall a, b :: a in db.cards && b in db.cards && a != b ==> db.cards[a].code != db.cards[b].code
  }

  function CodeCandidates(attempts: seq<seq<nat>>): (r: seq<string>)
    ensures |r| == |attempts|
    ensures forall i :: 0 <= i < |r| ==> CodeGenerator.IsCode(r[i], "SB-", 8)
  {
    seq(|attempts|, i requires 0 <= i < |attempts| => CodeGenerator.CardCode(attempts[i]))
  }

  /** The row `generateCard` inserts: only code, round, purchase and numbers are set. */
  function NewCard(code: string, roundId: nat, purchaseId: Option<nat>, numbers: seq<int>): Card {
    Card(code, roundId, purchaseId, None, numbers, Available, false, None)
  }

  /** What a generated card looks like once stored. */
  predicate IsGeneratedCard(c: Card, roundId: nat, purchaseId: Option<nat>) {
    && c.roundId == roundId && c.purchaseId == purchaseId && c.userId == None
    && ValidCard(c.numbers) && CodeGenerator.IsCode(c.code, "SB-", 8)
    && c.status == Available && !c.isWinner && c.declaredAt == None
  }

  /**
    `generateCard`: the first code attempt no stored card uses, a fresh id and the
    assembled numbers. `None` when every supplied code attempt is already taken (the
    source keeps retrying).
   */
  function GenerateCard(db: Db, roundId: nat, purchaseId: Option<nat>, draw: CardDraw): (r: Option<(Db, nat)>)
    ensures r.Some? ==>
      var (db', id) := r.value;
      && id !in db.cards && id in db'.cards
      && db'.cards == db.cards[id := db'.cards[id]]
      && IsGeneratedCard(db'.cards[id], roundId, purchaseId)
      && db'.cards[id].code !in CodesInUse(db)
      && db' == db.(cards := db'.cards)
    ensures r.None? <==> forall i :: 0 <= i < |draw.codeAttempts| ==> CodeGenerator.CardCode(draw.codeAttempts[i]) in CodesInUse(db)
  {
    var candidates := CodeCandidates(draw.codeAttempts);
    assert forall i :: 0 <= i < |candidates| ==> candidates[i] == CodeGenerator.CardCode(draw.codeAttempts[i]);
    match CodeGenerator.FirstFresh(candidates, CodesInUse(db))
    case None => None
    case Some(code) =>
      var id := Keys.FreshKey(db.cards.Keys);
      var numbers := CardNumbers(draw.columns);
      CardNumbersValid(draw.columns);
      Some((db.(cards := db.cards[id := NewCard(code, roundId, purchaseId, numbers)]), id))
  }

  /** A new card with a code no stored card uses keeps codes unique. */
  lemma GenerateCardKeepsCodesUnique(db: Db, roundId: nat, purchaseId: Option<nat>, draw: CardDraw)
    requires UniqueCodes(db)
    requires GenerateCard(db, roundId, purchaseId, draw).Some?
    ensures UniqueCodes(GenerateCard(db, roundId, purchaseId, draw).value.0)
  {
  }

  /**
    `db'` is `db` with the cards `ids` added: different new ids, each a generated card
    of the round and purchase whose code no card of `db` uses; nothing else changes.
   */
  ghost predicate AddsCards(db: Db, db': Db, ids: seq<nat>, roundId: nat, purchaseId: Option<nat>) {
    && (forall i, j :: 0 <= i < j < |ids| ==> ids[i] != ids[j])
    && (forall i :: 0 <= i < |ids| ==> ids[i] !in db.cards && ids[i] in db'.cards)
    && (forall i :: 0 <= i < |ids| ==> IsGeneratedCard(db'.cards[ids[i]], roundId, purchaseId))
    && (forall i :: 0 <= i < |ids| ==> db'.cards[ids[i]].code !in CodesInUse(db))
    && (forall id :: id in db'.cards <==> id in db.cards || id in ids)
    && (forall id :: id in db.cards ==> db'.cards[id] == db.cards[id])
    && db' == db.(cards := db'.cards)
  }

  /** The codes in use only grow when a card is added. */
  lemma CodesInUseGrow(db: Db, db1: Db, id: nat)
    requires id !in db.cards && id in db1.cards && db1.cards == db.cards[id := db1.cards[id]]
    ensures CodesInUse(db) <= CodesInUse(db1)
  {
    forall c | c in CodesInUse(db)
      ensures c in CodesInUse(db1)
    {
      var k :| k in db.cards && db.cards[k].code == c;
      assert db1.cards[k] == db.cards[k];
    }
  }

  /** The per-card facts of `AddsCards` for a card added in front of the others. */
  lemma AddsCardsConsElems(db: Db, db1: Db, db2: Db, id: nat, ids: seq<nat>, roundId: nat, purchaseId: Option<nat>)
    requires id !in db.cards && id in db1.cards
    requires db1 == db.(cards := db.cards[id := db1.cards[id]])
    requires IsGeneratedCard(db1.cards[id], roundId, purchaseId)
    requires db1.cards[id].code !in CodesInUse(db)
    requires AddsCards(db1, db2, ids, roundId, purchaseId)
    ensures forall i :: 0 <= i < |[id] + ids| ==>
      && ([id] + ids)[i] !in db.cards && ([id] + ids)[i] in db2.cards
      && IsGeneratedCard(db2.cards[([id] + ids)[i]], roundId, purchaseId)
      && db2.cards[([id] + ids)[i]].code !in CodesInUse(db)
  {
    CodesInUseGrow(db, db1, id);
    var all := [id] + ids;
    assert db2.cards[id] == db1.cards[id];
    forall i | 0 <= i < |all|
      ensures all[i] !in db.cards && all[i] in db2.cards
      ensures IsGeneratedCard(db2.cards[all[i]], roundId, purchaseId)
      ensures db2.cards[all[i]].code !in CodesInUse(db)
    {
      if i > 0 {
        assert all[i] == ids[i - 1];
      }
    }
  }

  lemma AddsCardsCons(db: Db, db1: Db, db2: Db, id: nat, ids: seq<nat>, roundId: nat, purchaseId: Option<nat>)
    requires id !in db.cards && id in db1.cards
    requires db1 == db.(cards := db.cards[id := db1.cards[id]])
    requires IsGeneratedCard(db1.cards[id], roundId, purchaseId)
    requires db1.cards[id].code !in CodesInUse(db)
    requires AddsCards(db1, db2, ids, roundId, purchaseId)
    ensures AddsCards(db, db2, [id] + ids, roundId, purchaseId)
  {
    AddsCardsConsElems(db, db1, db2, id, ids, roundId, purchaseId);
    var all := [id] + ids;
    forall i, j | 0 <= i < j < |all|
      ensures all[i] != all[j]
    {
      assert all[j] == ids[j - 1];
      if i > 0 {
        assert all[i] == ids[i - 1];
      }
    }
    assert forall k :: k in db.cards ==> db2.cards[k] == db1.cards[k] == db.cards[k];
  }

  /**
    `generateCards`: `quantity` calls of `generateCard` in sequence (none for a
    quantity of zero or less). `None` when some call runs out of code attempts or
    the draws run out.
   */
  function GenerateCards(db: Db, roundId: nat, purchaseId: Option<nat>, quantity: int, draws: seq<CardDraw>): (r: Option<(Db, seq<nat>)>)
    ensures r.Some? ==> |r.value.1| == (if quantity > 0 then quantity else 0)
    ensures r.Some? ==> AddsCards(db, r.value.0, r.value.1, roundId, purchaseId)
    ensures r.Some? && UniqueCodes(db) ==> UniqueCodes(r.value.0)
    ensures quantity <= 0 ==> r == Some((db, []))
    decreases if quantity > 0 then quantity else 0
  {
    if quantity <= 0 then Some((db, []))
    else if draws == [] then None
    else
      match GenerateCard(db, roundId, purchaseId, draws[0])
      case None => None
      case Some((db1, id)) =>
        match GenerateCards(db1, roundId, purchaseId, quantity - 1, draws[1..])
        case None => None
        case Some((db2, ids)) =>
          AddsCardsCons(db, db1, db2, id, ids, roundId, purchaseId);
          if UniqueCodes(db) then GenerateCardKeepsCodesUnique(db, roundId, purchaseId, draws[0]); Some((db2, [id] + ids))
          else Some((db2, [id] + ids))
  }
}
