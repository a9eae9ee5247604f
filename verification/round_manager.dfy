/**
  The round lifecycle: creation, the guarded status transitions, the draw step,
  cancellation and the two time-driven sweeps. Each exported function of
  `services/roundManager.js` is one atomic transition of the store; the Redis
  notifications are left out.
 */
module RoundManager {
  import opened Wrappers
  import opened Store
  import Keys
  import Helpers
  import CardGenerator

  // ---------------------------------------------------------------- creation

  /** The `round_config` used when the settings row is missing. */
  const DefaultRoundConfig: RoundConfig :=
    RoundConfig(KindConfig(7, 3, Some(5.0)), KindConfig(57, 3, Some(10.0)), None)

  function EffectiveRoundConfig(s: Settings): RoundConfig {
    s.roundConfig.GetOr(DefaultRoundConfig)
  }

  function KindConfigOf(rc: RoundConfig, kind: RoundKind): KindConfig {
    if kind == Regular then rc.regular else rc.special
  }

  /** The legacy `card_price_regular` / `card_price_special` setting of a kind. */
  function LegacyPrice(s: Settings, kind: RoundKind): Option<real> {
    if kind == Regular then s.cardPriceRegular else s.cardPriceSpecial
  }

  /**
    `config.card_price || getSetting('card_price_<type>')`: a set configured price
    wins; otherwise the legacy setting is used, which may be missing too. A round
    gets a non-zero price exactly when one of the two sources has one.
   */
  function NewRoundPrice(s: Settings, kind: RoundKind): (price: Option<real>)
    ensures price == KindConfigOf(EffectiveRoundConfig(s), kind).cardPrice || price == LegacyPrice(s, kind)
    ensures TruthyReal(KindConfigOf(EffectiveRoundConfig(s), kind).cardPrice) ==> price == KindConfigOf(EffectiveRoundConfig(s), kind).cardPrice
    ensures TruthyReal(price) <==> TruthyReal(KindConfigOf(EffectiveRoundConfig(s), kind).cardPrice) || TruthyReal(LegacyPrice(s, kind))
  {
    var c := KindConfigOf(EffectiveRoundConfig(s), kind);
    if TruthyReal(c.cardPrice) then c.cardPrice else LegacyPrice(s, kind)
  }

  /** `roundConfig.max_cards_per_round || getSetting('max_cards_per_round') || 10000`. */
  function NewRoundMaxCards(s: Settings): (m: int)
    ensures m != 0
    ensures TruthyInt(EffectiveRoundConfig(s).maxCardsPerRound) ==> m == EffectiveRoundConfig(s).maxCardsPerRound.value
    ensures !TruthyInt(EffectiveRoundConfig(s).maxCardsPerRound) && TruthyInt(s.maxCardsPerRound) ==> m == s.maxCardsPerRound.value
    ensures !TruthyInt(EffectiveRoundConfig(s).maxCardsPerRound) && !TruthyInt(s.maxCardsPerRound) ==> m == 10000
  {
    var rc := EffectiveRoundConfig(s);
    if TruthyInt(rc.maxCardsPerRound) then rc.maxCardsPerRound.value
    else if TruthyInt(s.maxCardsPerRound) then s.maxCardsPerRound.value
    else 10000
  }

  function RoundNumbers(db: Db): set<int> {
    set id | id in db.rounds :: db.rounds[id].number
  }

  /** One past the largest round number, or 1 when there are no rounds. */
  function NextRoundNumber(db: Db): (n: int)
    ensures db.rounds == map[] ==> n == 1
    ensures db.rounds != map[] ==> n - 1 in RoundNumbers(db)
    ensures forall m :: m in RoundNumbers(db) ==> m < n
  {
    if db.rounds == map[] then 1
    else
      var ids := db.rounds.Keys;
      Keys.HasMemberNat(ids);
      var id :| id in ids;
      assert db.rounds[id].number in RoundNumbers(db);
      Keys.SetMax(RoundNumbers(db)) + 1
  }

  /** No two rounds share a number. */
  predicate UniqueRoundNumbers(db: Db) {
    forall a, b :: a in db.rounds && b in db.rounds && a != b ==> db.rounds[a].number != db.rounds[b].number
  }

  /** No round is waiting in the scheduled state. */
  predicate NoScheduledRounds(db: Db) {
    forall id :: id in db.rounds ==> db.rounds[id].status != Scheduled
  }

  /** The round `createNextRound` inserts at instant `now`. */
  function NewRound(s: Settings, number: int, kind: RoundKind, now: int): Round {
    var c := KindConfigOf(EffectiveRoundConfig(s), kind);
    var sellingEndsAt := Helpers.AddMinutes(now, c.sellingMinutes);
    Round(number, kind, Selling, true, NewRoundPrice(s, kind), NewRoundMaxCards(s), 0,
          now, sellingEndsAt, Helpers.AddMinutes(sellingEndsAt, c.closedMinutes),
          None, None, [], 0.0, 0.0, 0.0, 0.0, 0.0, None, None, None)
  }

  /**
    `createNextRound(type)`: a new round numbered after every existing one, selling
    from `now`, whose sale closes after the configured selling minutes and which
    ends after the closed minutes.
   */
  function CreateNextRound(db: Db, kind: RoundKind, now: int): (r: (Db, nat))
    ensures var (db', id) := r;
      && id !in db.rounds && id in db'.rounds && db'.rounds == db.rounds[id := db'.rounds[id]]
      && db' == db.(rounds := db'.rounds)
    ensures var round := r.0.rounds[r.1];
      var c := KindConfigOf(EffectiveRoundConfig(db.settings), kind);
      && round.kind == kind && round.status == Selling && round.isSelling
      && round.startsAt == now
      && round.sellingEndsAt == now + c.sellingMinutes * 60000
      && round.endsAt == round.sellingEndsAt + c.closedMinutes * 60000
      && round.drawn == [] && round.cardsSold == 0
      && round.cardPrice == NewRoundPrice(db.settings, kind)
      && round.maxCards == NewRoundMaxCards(db.settings)
    ensures r.0.rounds[r.1].number == NextRoundNumber(db)
    ensures db.rounds == map[] ==> r.0.rounds[r.1].number == 1
    ensures forall id :: id in db.rounds ==> db.rounds[id].number < r.0.rounds[r.1].number
  {
    var id := Keys.FreshKey(db.rounds.Keys);
    assert forall j :: j in db.rounds ==> db.rounds[j].number in RoundNumbers(db);
    (db.(rounds := db.rounds[id := NewRound(db.settings, NextRoundNumber(db), kind, now)]), id)
  }

  /** Creating a round keeps round numbers unique and creates no scheduled round. */
  lemma CreateNextRoundKeepsInvariants(db: Db, kind: RoundKind, now: int)
    requires UniqueRoundNumbers(db) && NoScheduledRounds(db)
    ensures UniqueRoundNumbers(CreateNextRound(db, kind, now).0)
    ensures NoScheduledRounds(CreateNextRound(db, kind, now).0)
  {
    var (db', id) := CreateNextRound(db, kind, now);
    forall a, b | a in db'.rounds && b in db'.rounds && a != b
      ensures db'.rounds[a].number != db'.rounds[b].number
    {
      if a == id {
        assert db'.rounds[b] == db.rounds[b];
      } else if b == id {
        assert db'.rounds[a] == db.rounds[a];
      }
    }
  }

  /** Without a `round_config` row a new regular round costs 5 and a new special round 10, whatever the legacy settings say. */
  lemma UnconfiguredRoundPrices(db: Db, now: int)
    requires db.settings.roundConfig.None?
    ensures CreateNextRound(db, Regular, now).0.rounds[CreateNextRound(db, Regular, now).1].cardPrice == Some(5.0)
    ensures CreateNextRound(db, Special, now).0.rounds[CreateNextRound(db, Special, now).1].cardPrice == Some(10.0)
  {
  }

  /** With non-negative configured minutes the round's instants are in order. */
  lemma NewRoundTimeline(db: Db, kind: RoundKind, now: int)
    requires KindConfigOf(EffectiveRoundConfig(db.settings), kind).sellingMinutes >= 0
    requires KindConfigOf(EffectiveRoundConfig(db.settings), kind).closedMinutes >= 0
    ensures var round := CreateNextRound(db, kind, now).0.rounds[CreateNextRound(db, kind, now).1];
      round.startsAt <= round.sellingEndsAt <= round.endsAt
  {
  }

  // ---------------------------------------------------------------- guarded transitions

  /** Only round `id` may differ between the two states; no other table changes. */
  predicate OnlyRoundChanged(db: Db, db': Db, id: nat) {
    && db' == db.(rounds := db'.rounds)
    && db'.rounds.Keys == db.rounds.Keys
    && forall j :: j in db.rounds && j != id ==> db'.rounds[j] == db.rounds[j]
  }

  /** Replaces round `id` when `guard` holds of it; a no-op otherwise (an `UPDATE ... WHERE` matching nothing). */
  function UpdateRoundWhere(db: Db, id: nat, guard: bool, f: Round): (db': Db)
    requires id in db.rounds
    ensures OnlyRoundChanged(db, db', id)
    ensures db'.rounds[id] == if guard then f else db.rounds[id]
  {
    if guard then db.(rounds := db.rounds[id := f]) else db
  }

  /** `startRoundSelling`: scheduled becomes selling with sales open; any other state is left alone. */
  function StartRoundSelling(db: Db, id: nat): (db': Db)
    ensures OnlyRoundChanged(db, db', id)
    ensures id in db.rounds && db.rounds[id].status == Scheduled ==>
      db'.rounds[id] == db.rounds[id].(status := Selling, isSelling := true)
    ensures !(id in db.rounds && db.rounds[id].status == Scheduled) ==> db' == db
  {
    if id !in db.rounds then db
    else
      var r := db.rounds[id];
      UpdateRoundWhere(db, id, r.status == Scheduled, r.(status := Selling, isSelling := true))
  }

  /** `closeRoundSelling`: a selling round with sales open stops selling and keeps its status. */
  function CloseRoundSelling(db: Db, id: nat): (db': Db)
    ensures OnlyRoundChanged(db, db', id)
    ensures id in db.rounds && db.rounds[id].status == Selling && db.rounds[id].isSelling ==>
      db'.rounds[id] == db.rounds[id].(isSelling := false)
    ensures !(id in db.rounds && db.rounds[id].status == Selling && db.rounds[id].isSelling) ==> db' == db
  {
    if id !in db.rounds then db
    else
      var r := db.rounds[id];
      UpdateRoundWhere(db, id, r.status == Selling && r.isSelling, r.(isSelling := false))
  }

  /** `startRoundDrawing`: a selling round starts drawing at `now`, whether or not sales are still open. */
  function StartRoundDrawing(db: Db, id: nat, now: int): (db': Db)
    ensures OnlyRoundChanged(db, db', id)
    ensures id in db.rounds && db.rounds[id].status == Selling ==>
      db'.rounds[id] == db.rounds[id].(status := Drawing, drawingStartedAt := Some(now))
    ensures !(id in db.rounds && db.rounds[id].status == Selling) ==> db' == db
  {
    if id !in db.rounds then db
    else
      var r := db.rounds[id];
      UpdateRoundWhere(db, id, r.status == Selling, r.(status := Drawing, drawingStartedAt := Some(now)))
  }

  /** `finishRound`: a drawing or selling round is finished at `now`. */
  function FinishRound(db: Db, id: nat, now: int): (db': Db)
    ensures OnlyRoundChanged(db, db', id)
    ensures id in db.rounds && db.rounds[id].status in {Drawing, Selling} ==>
      db'.rounds[id] == db.rounds[id].(status := Finished, finishedAt := Some(now))
    ensures !(id in db.rounds && db.rounds[id].status in {Drawing, Selling}) ==> db' == db
  {
    if id !in db.rounds then db
    else
      var r := db.rounds[id];
      UpdateRoundWhere(db, id, r.status == Drawing || r.status == Selling, r.(status := Finished, finishedAt := Some(now)))
  }

  /** Repeating a guarded transition changes nothing more: its target state fails its own guard. */
  lemma GuardedTransitionsIdempotent(db: Db, id: nat, now: int, later: int)
    ensures StartRoundSelling(StartRoundSelling(db, id), id) == StartRoundSelling(db, id)
    ensures CloseRoundSelling(CloseRoundSelling(db, id), id) == CloseRoundSelling(db, id)
    ensures StartRoundDrawing(StartRoundDrawing(db, id, now), id, later) == StartRoundDrawing(db, id, now)
    ensures FinishRound(FinishRound(db, id, now), id, later) == FinishRound(db, id, now)
  {
  }

  /** Progress order of the statuses a round moves through; finished and cancelled are terminal. */
  function Stage(s: RoundStatus): nat {
    match s
    case Scheduled => 0
    case Selling => 1
    case Drawing => 2
    case Finished => 3
    case Cancelled => 3
  }

  /** The guarded transitions never move a round backwards and never leave a terminal state. */
  lemma GuardedTransitionsMoveForward(db: Db, id: nat, now: int)
    requires id in db.rounds
    ensures var s := db.rounds[id].status;
      && Stage(s) <= Stage(StartRoundSelling(db, id).rounds[id].status)
      && Stage(s) <= Stage(StartRoundDrawing(db, id, now).rounds[id].status)
      && Stage(s) <= Stage(FinishRound(db, id, now).rounds[id].status)
      && CloseRoundSelling(db, id).rounds[id].status == s
    ensures db.rounds[id].status in {Finished, Cancelled} ==>
      && StartRoundSelling(db, id) == db && CloseRoundSelling(db, id) == db
      && StartRoundDrawing(db, id, now) == db && FinishRound(db, id, now) == db
  {
  }

  // ---------------------------------------------------------------- drawing numbers

  /** The numbers of `lo..75` not yet drawn, ascending. */
  function UndrawnFrom(lo: int, drawn: seq<int>): (r: seq<int>)
    ensures forall n :: n in r <==> lo <= n <= 75 && n !in drawn
    ensures |r| <= if lo <= 75 then 76 - lo else 0
    decreases 76 - lo
  {
    if lo > 75 then []
    else (if lo in drawn then [] else [lo]) + UndrawnFrom(lo + 1, drawn)
  }

  function Undrawn(drawn: seq<int>): seq<int> {
    UndrawnFrom(1, drawn)
  }

  function Elems(s: seq<int>): set<int> {
    set x | x in s
  }

  lemma {:induction false} ElemsCard(s: seq<int>)
    ensures |Elems(s)| <= |s|
  {
    if s != [] {
      ElemsCard(s[1..]);
      assert Elems(s) == {s[0]} + Elems(s[1..]);
    }
  }

  lemma {:induction false} RangeElemsCard(lo: int, hi: int)
    requires lo <= hi + 1
    ensures |Elems(CardGenerator.Range(lo, hi))| == hi - lo + 1
    decreases hi - lo + 1
  {
    if lo <= hi {
      RangeElemsCard(lo + 1, hi);
      var rest := CardGenerator.Range(lo + 1, hi);
      assert CardGenerator.Range(lo, hi) == [lo] + rest;
      assert Elems(CardGenerator.Range(lo, hi)) == {lo} + Elems(rest);
      assert lo !in Elems(rest);
    } else {
      assert Elems(CardGenerator.Range(lo, hi)) == {};
    }
  }

  lemma {:induction false} SubsetCard(a: set<int>, b: set<int>)
    requires a <= b
    ensures |a| <= |b|
    decreases |a|
  {
    if a != {} {
      Keys.HasMember(a);
      var x :| x in a;
      SubsetCard(a - {x}, b - {x});
    }
  }

  lemma UnionCard(a: set<int>, b: set<int>)
    ensures |a + b| <= |a| + |b|
  {
    assert |a + b| + |a * b| == |a| + |b|;
  }

  /** While fewer than 75 numbers are recorded some number of 1..75 is still undrawn. */
  lemma UndrawnNonEmpty(drawn: seq<int>)
    requires |drawn| < 75
    ensures |Undrawn(drawn)| >= 1
  {
    var u := Undrawn(drawn);
    var span := Elems(CardGenerator.Range(1, 75));
    RangeElemsCard(1, 75);
    ElemsCard(drawn);
    ElemsCard(u);
    forall x | x in span
      ensures x in Elems(drawn) + Elems(u)
    {
      var k :| 0 <= k < 75 && CardGenerator.Range(1, 75)[k] == x;
    }
    SubsetCard(span, Elems(drawn) + Elems(u));
    UnionCard(Elems(drawn), Elems(u));
  }

  /** A duplicate-free record of numbers in 1..75. */
  predicate ValidDrawn(drawn: seq<int>) {
    CardGenerator.Distinct(drawn) && forall i :: 0 <= i < |drawn| ==> 1 <= drawn[i] <= 75
  }

  datatype DrawResult = DrawResult(number: int, position: nat, total: nat)

  /** The number a draw with outcome `pick` takes: the pick-th of the undrawn numbers, cyclically. */
  function NextNumber(drawn: seq<int>, pick: nat): (n: int)
    requires |drawn| < 75
    ensures 1 <= n <= 75 && n !in drawn
    ensures |Undrawn(drawn)| >= 1 && n == Undrawn(drawn)[pick % |Undrawn(drawn)|]
  {
    UndrawnNonEmpty(drawn);
    var u := Undrawn(drawn);
    assert u[pick % |u|] in u;
    u[pick % |u|]
  }

  /**
    `drawNextNumber`: on a drawing round with fewer than 75 numbers, appends a number
    of 1..75 not drawn before and records it in `draws` at the next position. The
    rejection-sampling loop is modelled by `pick`, which selects one of the undrawn
    numbers. Failures change nothing.
   */
  function DrawNextNumber(db: Db, id: nat, pick: nat): (r: Result<(Db, DrawResult)>)
    ensures r.Err? <==> id !in db.rounds || db.rounds[id].status != Drawing || |db.rounds[id].drawn| >= 75
    ensures r.Ok? ==>
      var (db', d) := r.value;
      var drawn := db.rounds[id].drawn;
      && 1 <= d.number <= 75 && d.number !in drawn
      && |Undrawn(drawn)| >= 1 && d.number == Undrawn(drawn)[pick % |Undrawn(drawn)|]
      && d.number == NextNumber(drawn, pick)
      && d.position == |drawn| + 1 && d.total == |drawn| + 1
      && db'.rounds == db.rounds[id := db.rounds[id].(drawn := drawn + [d.number])]
      && db'.draws == db.draws + [Draw(id, d.number, d.position)]
      && db' == db.(rounds := db'.rounds, draws := db'.draws)
  {
    if id !in db.rounds || db.rounds[id].status != Drawing then Err("Round not found or not in drawing status")
    else
      var round := db.rounds[id];
      var drawn := round.drawn;
      if |drawn| >= 75 then Err("All numbers already drawn")
      else
        var number := NextNumber(drawn, pick);
        var position := |drawn| + 1;
        Ok((db.(rounds := db.rounds[id := round.(drawn := drawn + [number])],
                draws := db.draws + [Draw(id, number, position)]),
            DrawResult(number, position, position)))
  }

  lemma AppendKeepsValid(drawn: seq<int>, n: int)
    requires ValidDrawn(drawn) && 1 <= n <= 75 && n !in drawn
    ensures ValidDrawn(drawn + [n])
  {
    var d := drawn + [n];
    forall i, j | 0 <= i < j < |d|
      ensures d[i] != d[j]
    {
      if j == |drawn| {
        assert d[i] == drawn[i];
      } else {
        assert d[i] == drawn[i] && d[j] == drawn[j];
      }
    }
  }

  /** A draw keeps the record duplicate-free, within 1..75 and at most 75 long. */
  lemma DrawKeepsRecordValid(db: Db, id: nat, pick: nat)
    requires id in db.rounds && ValidDrawn(db.rounds[id].drawn)
    requires DrawNextNumber(db, id, pick).Ok?
    ensures var drawn' := DrawNextNumber(db, id, pick).value.0.rounds[id].drawn;
      ValidDrawn(drawn') && |drawn'| <= 75
  {
    var (db', d) := DrawNextNumber(db, id, pick).value;
    var drawn := db.rounds[id].drawn;
    assert db'.rounds[id].drawn == drawn + [d.number];
    AppendKeepsValid(drawn, d.number);
  }

  lemma ModSmall(k: nat, m: nat)
    requires k < m
    ensures k % m == k
  {
  }

  /** Every undrawn number is a possible outcome of the draw. */
  lemma EveryUndrawnNumberReachable(db: Db, id: nat, n: int) returns (pick: nat)
    requires id in db.rounds && db.rounds[id].status == Drawing && |db.rounds[id].drawn| < 75
    requires 1 <= n <= 75 && n !in db.rounds[id].drawn
    ensures DrawNextNumber(db, id, pick).Ok? && DrawNextNumber(db, id, pick).value.1.number == n
  {
    var u := Undrawn(db.rounds[id].drawn);
    assert n in u;
    var k :| 0 <= k < |u| && u[k] == n;
    ModSmall(k, |u|);
    pick := k;
    var r := DrawNextNumber(db, id, pick);
    assert r.Ok?;
    assert r.value.1.number == u[pick % |u|];
  }

  // ---------------------------------------------------------------- cancellation

  /**
    `cancelRound`: the round becomes cancelled whatever its status, and in the same
    transaction every paid purchase of that round becomes refunded.
   */
  function CancelRound(db: Db, id: nat): (db': Db)
    ensures db' == db.(rounds := db'.rounds, purchases := db'.purchases)
    ensures db'.rounds.Keys == db.rounds.Keys && db'.purchases.Keys == db.purchases.Keys
    ensures id in db.rounds ==> db'.rounds[id] == db.rounds[id].(status := Cancelled)
    ensures forall j :: j in db.rounds && j != id ==> db'.rounds[j] == db.rounds[j]
    ensures forall p :: p in db.purchases ==>
      db'.purchases[p] == if db.purchases[p].roundId == id && db.purchases[p].status == Paid
                          then db.purchases[p].(status := Refunded) else db.purchases[p]
  {
    var rounds := if id in db.rounds then db.rounds[id := db.rounds[id].(status := Cancelled)] else db.rounds;
    db.(rounds := rounds, purchases := RefundPaid(db.purchases, id))
  }

  /** The refund update of `cancelRound`: the round's paid purchases become refunded. */
  function RefundPaid(purchases: map<nat, Purchase>, id: nat): (ps: map<nat, Purchase>)
    ensures ps.Keys == purchases.Keys
    ensures forall p :: p in purchases ==>
      ps[p] == if purchases[p].roundId == id && purchases[p].status == Paid
               then purchases[p].(status := Refunded) else purchases[p]
  {
    map p | p in purchases ::
      if purchases[p].roundId == id && purchases[p].status == Paid then purchases[p].(status := Refunded) else purchases[p]
  }

  /** Even a finished round is cancelled, and a purchase is refunded exactly when it was a paid purchase of that round. */
  lemma CancelRoundHasNoStatusGuard(db: Db, id: nat, p: nat)
    requires id in db.rounds && db.rounds[id].status == Finished
    requires p in db.purchases
    ensures CancelRound(db, id).rounds[id].status == Cancelled
    ensures CancelRound(db, id).purchases[p].status == Refunded
      <==> db.purchases[p].status == Refunded || (db.purchases[p].roundId == id && db.purchases[p].status == Paid)
  {
  }

  // ---------------------------------------------------------------- sweeps

  function OpenScheduled(r: Round, now: int): Round {
    if r.status == Scheduled && r.startsAt <= now then r.(status := Selling, isSelling := true) else r
  }

  function CloseSales(r: Round, now: int): Round {
    if r.status == Selling && r.isSelling && r.sellingEndsAt <= now then r.(isSelling := false) else r
  }

  function BeginDrawing(r: Round, now: int): Round {
    if r.status == Selling && r.endsAt <= now then r.(status := Drawing, drawingStartedAt := Some(now)) else r
  }

  /**
    `updateRoundsStatus(now)`: three table-wide updates in order: open due scheduled
    rounds, close sales past `selling_ends_at`, start drawing past `ends_at`
    whether or not sales were closed.
   */
  function UpdateRoundsStatus(db: Db, now: int): (db': Db)
    ensures db' == db.(rounds := db'.rounds) && db'.rounds.Keys == db.rounds.Keys
    ensures forall id :: id in db.rounds ==> db'.rounds[id] == BeginDrawing(CloseSales(OpenScheduled(db.rounds[id], now), now), now)
  {
    // The three updates touch each row independently, so they compose row by row.
    db.(rounds := map id | id in db.rounds :: BeginDrawing(CloseSales(OpenScheduled(db.rounds[id], now), now), now))
  }

  /**
    After a sweep nothing is due any more: a scheduled round starts after `now`, a
    selling round ends after `now`, and one still open for sales closes after `now`.
   */
  lemma UpdateRoundsStatusLeavesNothingDue(db: Db, now: int, id: nat)
    requires id in db.rounds
    ensures var r := UpdateRoundsStatus(db, now).rounds[id];
      && (r.status == Scheduled ==> r.startsAt > now)
      && (r.status == Selling ==> r.endsAt > now)
      && (r.status == Selling && r.isSelling ==> r.sellingEndsAt > now)
  {
  }

  /** A second sweep at the same instant changes nothing. */
  lemma UpdateRoundsStatusIdempotent(db: Db, now: int)
    ensures UpdateRoundsStatus(UpdateRoundsStatus(db, now), now) == UpdateRoundsStatus(db, now)
  {
    var once := UpdateRoundsStatus(db, now);
    var twice := UpdateRoundsStatus(once, now);
    forall id | id in once.rounds
      ensures twice.rounds[id] == once.rounds[id]
    {
      UpdateRoundsStatusLeavesNothingDue(db, now, id);
      SweepFixesSettledRound(once.rounds[id], now);
    }
    assert twice.rounds == once.rounds;
  }

  /** A round with nothing due is left as it is by the three steps. */
  lemma SweepFixesSettledRound(r: Round, now: int)
    requires r.status == Scheduled ==> r.startsAt > now
    requires r.status == Selling ==> r.endsAt > now
    requires r.status == Selling && r.isSelling ==> r.sellingEndsAt > now
    ensures BeginDrawing(CloseSales(OpenScheduled(r, now), now), now) == r
  {
  }

  /** A sweep only moves rounds forward and leaves finished and cancelled rounds alone. */
  lemma UpdateRoundsStatusMovesForward(db: Db, now: int, id: nat)
    requires id in db.rounds
    ensures Stage(db.rounds[id].status) <= Stage(UpdateRoundsStatus(db, now).rounds[id].status)
    ensures db.rounds[id].status in {Finished, Cancelled} ==> UpdateRoundsStatus(db, now).rounds[id] == db.rounds[id]
  {
  }

  /** A scheduled round whose whole window has passed goes straight to drawing in one sweep. */
  lemma OverdueScheduledRoundStartsDrawing(db: Db, now: int, id: nat)
    requires id in db.rounds && db.rounds[id].status == Scheduled
    requires db.rounds[id].startsAt <= now && db.rounds[id].endsAt <= now
    ensures UpdateRoundsStatus(db, now).rounds[id].status == Drawing
    ensures UpdateRoundsStatus(db, now).rounds[id].isSelling == (db.rounds[id].sellingEndsAt > now)
  {
  }

  function ScheduledStarts(db: Db, kind: RoundKind): set<int> {
    set id | id in db.rounds && db.rounds[id].kind == kind && db.rounds[id].status == Scheduled :: db.rounds[id].startsAt
  }

  /**
    The creation test of `checkAndCreateRounds`: no scheduled round of the type,
    or the earliest one starts less than `lead` minutes from `now`.
   */
  function NeedsRound(db: Db, kind: RoundKind, now: int, lead: int): (b: bool)
    ensures b <==> ScheduledStarts(db, kind) == {} || exists t :: t in ScheduledStarts(db, kind) && t < Helpers.AddMinutes(now, lead)
  {
    var starts := ScheduledStarts(db, kind);
    if starts == {} then true
    else
      var earliest := Keys.SetMin(starts);
      assert Keys.IsMin(starts, earliest);
      earliest < Helpers.AddMinutes(now, lead)
  }

  /**
    `checkAndCreateRounds(now)`: a regular round when one is needed within 5
    minutes, then a special round when one is needed within 30 minutes.
   */
  function CheckAndCreateRounds(db: Db, now: int): (db': Db)
    ensures |db'.rounds| == |db.rounds| + (if NeedsRound(db, Regular, now, 5) then 1 else 0)
      + (if NeedsRound(CreateIf(db, Regular, now, 5), Special, now, 30) then 1 else 0)
    ensures db' == db.(rounds := db'.rounds)
    ensures forall id :: id in db.rounds ==> id in db'.rounds && db'.rounds[id] == db.rounds[id]
    ensures NeedsRound(db, Regular, now, 5) ==>
      exists id :: id in db'.rounds && id !in db.rounds && db'.rounds[id].kind == Regular
    ensures NeedsRound(CreateIf(db, Regular, now, 5), Special, now, 30) ==>
      exists id :: id in db'.rounds && id !in db.rounds && db'.rounds[id].kind == Special
  {
    var db1 := CreateIf(db, Regular, now, 5);
    var db2 := CreateIf(db1, Special, now, 30);
    assert NeedsRound(db1, Special, now, 30) ==>
      exists id :: id in db2.rounds && id !in db.rounds && db2.rounds[id].kind == Special by {
      if NeedsRound(db1, Special, now, 30) {
        var id :| id in db2.rounds && id !in db1.rounds && db2.rounds[id].kind == Special;
        assert id !in db.rounds;
      }
    }
    db2
  }

  function CreateIf(db: Db, kind: RoundKind, now: int, lead: int): (db': Db)
    ensures |db'.rounds| == |db.rounds| + (if NeedsRound(db, kind, now, lead) then 1 else 0)
    ensures db' == db.(rounds := db'.rounds)
    ensures forall id :: id in db.rounds ==> id in db'.rounds && db'.rounds[id] == db.rounds[id]
    ensures NeedsRound(db, kind, now, lead) ==> exists id :: id in db'.rounds && id !in db.rounds && db'.rounds[id].kind == kind
    ensures !NeedsRound(db, kind, now, lead) ==> db' == db
  {
    if NeedsRound(db, kind, now, lead) then
      var (db', id) := CreateNextRound(db, kind, now);
      assert db'.rounds.Keys == db.rounds.Keys + {id};
      db'
    else db
  }

  /** With no round scheduled every call creates one regular and one special round, and still none is scheduled. */
  lemma CheckAndCreateRoundsCreatesBoth(db: Db, now: int)
    requires NoScheduledRounds(db) && UniqueRoundNumbers(db)
    ensures |CheckAndCreateRounds(db, now).rounds| == |db.rounds| + 2
    ensures var db' := CheckAndCreateRounds(db, now);
      exists a, b :: && a in db'.rounds && a !in db.rounds && db'.rounds[a].kind == Regular
                     && b in db'.rounds && b !in db.rounds && db'.rounds[b].kind == Special
    ensures NoScheduledRounds(CheckAndCreateRounds(db, now))
    ensures UniqueRoundNumbers(CheckAndCreateRounds(db, now))
  {
    assert ScheduledStarts(db, Regular) == {};
    var db1 := CreateIf(db, Regular, now, 5);
    CreateNextRoundKeepsInvariants(db, Regular, now);
    assert ScheduledStarts(db1, Special) == {};
    CreateNextRoundKeepsInvariants(db1, Special, now);
  }
}
