/**
  The logic of the periodic jobs in `cron/jobs.js`, one sweep per call. Each sweep
  reads its rows with one query and then processes them one by one; the order the
  database returned them in is the parameter `order`, which lists every selected
  row once. Scheduling and the Redis notifications are left out.
 */
module Jobs {
  import opened Wrappers
  import opened Store
  import RoundManager
  import CardGenerator

  // ---------------------------------------------------------------- expiring PIX purchases

  /** The rows `checkExpiredPurchases` updates; a NULL expiration never compares below `now`. */
  predicate ExpiresAt(p: Purchase, now: int) {
    p.status == Pending && p.payMethod == "pix" && p.pixExpiration.Some? && p.pixExpiration.value < now
  }

  /** `checkExpiredPurchases(now)`: pending PIX purchases past their expiration become expired. */
  function CheckExpiredPurchases(db: Db, now: int): (db': Db)
    ensures db' == db.(purchases := db'.purchases) && db'.purchases.Keys == db.purchases.Keys
    ensures forall p :: p in db.purchases && ExpiresAt(db.purchases[p], now) ==> db'.purchases[p] == db.purchases[p].(status := Expired)
    ensures forall p :: p in db.purchases && !ExpiresAt(db.purchases[p], now) ==> db'.purchases[p] == db.purchases[p]
  {
    db.(purchases := map p | p in db.purchases ::
      if ExpiresAt(db.purchases[p], now) then db.purchases[p].(status := Expired) else db.purchases[p])
  }

  /** Afterwards no purchase is left to expire, so a second sweep changes nothing. */
  lemma CheckExpiredPurchasesIdempotent(db: Db, now: int)
    ensures forall p :: p in CheckExpiredPurchases(db, now).purchases ==> !ExpiresAt(CheckExpiredPurchases(db, now).purchases[p], now)
    ensures CheckExpiredPurchases(CheckExpiredPurchases(db, now), now) == CheckExpiredPurchases(db, now)
  {
  }

  // ---------------------------------------------------------------- automatic draws

  /** The rounds `autoDrawNumbers` selects: drawing, with fewer than 75 numbers. */
  function DrawCandidates(db: Db): set<nat> {
    set id | id in db.rounds && db.rounds[id].status == Drawing && |db.rounds[id].drawn| < 75
  }

  /**
    What one tick does to a round, given the number of draws read before the tick:
    one more number, and finished when 74 or more had been read. A round whose draw
    fails is left as it was.
   */
  function AutoDrawRound(r: Round, snapshotLength: nat, pick: nat, now: int): (r': Round)
    ensures r.status != Drawing || |r.drawn| >= 75 ==> r' == r
    ensures r.status == Drawing && |r.drawn| < 75 ==>
      && r'.status == (if snapshotLength >= 74 then Finished else Drawing)
      && r'.finishedAt == (if snapshotLength >= 74 then Some(now) else r.finishedAt)
  {
    if r.status != Drawing || |r.drawn| >= 75 then r
    else
      var r1 := r.(drawn := r.drawn + [RoundManager.NextNumber(r.drawn, pick)]);
      if snapshotLength >= 74 then r1.(status := Finished, finishedAt := Some(now)) else r1
  }

  /** The drawn list grows by one number of 1..75 not drawn before. */
  lemma AutoDrawRoundAppends(r: Round, snapshotLength: nat, pick: nat, now: int)
    requires r.status == Drawing && |r.drawn| < 75
    ensures var r' := AutoDrawRound(r, snapshotLength, pick, now);
      && |r'.drawn| == |r.drawn| + 1 && r'.drawn[..|r.drawn|] == r.drawn
      && 1 <= r'.drawn[|r.drawn|] <= 75 && r'.drawn[|r.drawn|] !in r.drawn
  {
    var r' := AutoDrawRound(r, snapshotLength, pick, now);
    assert r'.drawn == r.drawn + [RoundManager.NextNumber(r.drawn, pick)];
  }

  /** A successful draw changes only the rounds and the draw log. */
  lemma DrawKeepsOtherTables(db: Db, id: nat, pick: nat)
    requires RoundManager.DrawNextNumber(db, id, pick).Ok?
    ensures var db1 := RoundManager.DrawNextNumber(db, id, pick).value.0;
      db1 == db.(rounds := db1.rounds, draws := db1.draws)
  {
  }

  /** A successful draw appends the number `AutoDrawRound` appends, and touches nothing else of the round. */
  lemma DrawMatchesAutoDrawRound(db: Db, id: nat, pick: nat)
    requires RoundManager.DrawNextNumber(db, id, pick).Ok?
    ensures id in db.rounds
    ensures var r := db.rounds[id];
      RoundManager.DrawNextNumber(db, id, pick).value.0.rounds == db.rounds[id := r.(drawn := r.drawn + [RoundManager.NextNumber(r.drawn, pick)])]
  {
  }

  lemma UpdateTwice<K, V>(m: map<K, V>, k: K, a: V, b: V)
    ensures m[k := a][k := b] == m[k := b]
  {
  }

  lemma UpdateSame<K, V>(m: map<K, V>, k: K)
    requires k in m
    ensures m[k := m[k]] == m
  {
  }

  /** The finishing update that follows a successful draw of round `id`. */
  function FinishIfFull(db: Db, db1: Db, id: nat, snapshotLength: nat, pick: nat, now: int): (db': Db)
    requires id in db.rounds && db.rounds[id].status == Drawing && |db.rounds[id].drawn| < 75
    requires db1 == db.(rounds := db1.rounds, draws := db1.draws)
    requires db1.rounds == db.rounds[id := db.rounds[id].(drawn := db.rounds[id].drawn + [RoundManager.NextNumber(db.rounds[id].drawn, pick)])]
    ensures db' == db.(rounds := db'.rounds, draws := db'.draws)
    ensures db'.rounds == db.rounds[id := AutoDrawRound(db.rounds[id], snapshotLength, pick, now)]
  {
    var r := db.rounds[id];
    var r1 := r.(drawn := r.drawn + [RoundManager.NextNumber(r.drawn, pick)]);
    var r2 := if snapshotLength >= 74 then r1.(status := Finished, finishedAt := Some(now)) else r1;
    assert r2 == AutoDrawRound(r, snapshotLength, pick, now);
    UpdateTwice(db.rounds, id, r1, r2);
    db1.(rounds := db1.rounds[id := (if snapshotLength >= 74 then db1.rounds[id].(status := Finished, finishedAt := Some(now)) else db1.rounds[id])])
  }

  /** One iteration of the loop: draw, then the unguarded finishing update; a failed draw is skipped. */
  function AutoDrawStep(db: Db, id: nat, snapshotLength: nat, pick: nat, now: int): (db': Db)
    ensures db' == db.(rounds := db'.rounds, draws := db'.draws)
    ensures db'.rounds == if id in db.rounds then db.rounds[id := AutoDrawRound(db.rounds[id], snapshotLength, pick, now)] else db.rounds
  {
    var res := RoundManager.DrawNextNumber(db, id, pick);
    if res.Err? then
      if id in db.rounds then
        assert AutoDrawRound(db.rounds[id], snapshotLength, pick, now) == db.rounds[id];
        UpdateSame(db.rounds, id);
        db
      else db
    else
      DrawKeepsOtherTables(db, id, pick);
      DrawMatchesAutoDrawRound(db, id, pick);
      FinishIfFull(db, res.value.0, id, snapshotLength, pick, now)
  }

  function Rest(picks: seq<nat>): seq<nat> {
    if picks == [] then [] else picks[1..]
  }

  lemma PickRest(picks: seq<nat>, i: nat)
    requires i >= 1
    ensures CardGenerator.Pick(Rest(picks), i - 1) == CardGenerator.Pick(picks, i)
  {
  }

  /** The loop of `autoDrawNumbers` over rows `(ids[i], lengths[i])`; the i-th draw uses pick i. */
  function AutoDrawRows(db: Db, ids: seq<nat>, lengths: seq<nat>, picks: seq<nat>, now: int): (db': Db)
    requires |ids| == |lengths|
    ensures db' == db.(rounds := db'.rounds, draws := db'.draws)
    ensures db'.rounds.Keys == db.rounds.Keys
    decreases |ids|
  {
    if ids == [] then db
    else
      var db1 := AutoDrawStep(db, ids[0], lengths[0], CardGenerator.Pick(picks, 0), now);
      AutoDrawRows(db1, ids[1..], lengths[1..], Rest(picks), now)
  }

  /** Each listed round gets its own draw with its own pick; unlisted rounds are untouched. */
  lemma {:induction false} AutoDrawRowsEffect(db: Db, ids: seq<nat>, lengths: seq<nat>, picks: seq<nat>, now: int)
    requires |ids| == |lengths|
    requires forall i, j :: 0 <= i < j < |ids| ==> ids[i] != ids[j]
    ensures var db' := AutoDrawRows(db, ids, lengths, picks, now);
      && (forall j :: j in db.rounds && j !in ids ==> db'.rounds[j] == db.rounds[j])
      && (forall i :: 0 <= i < |ids| && ids[i] in db.rounds ==>
            db'.rounds[ids[i]] == AutoDrawRound(db.rounds[ids[i]], lengths[i], CardGenerator.Pick(picks, i), now))
    decreases |ids|
  {
    if ids != [] {
      var db1 := AutoDrawStep(db, ids[0], lengths[0], CardGenerator.Pick(picks, 0), now);
      AutoDrawRowsEffect(db1, ids[1..], lengths[1..], Rest(picks), now);
      assert forall i :: 1 <= i < |ids| ==> ids[i] == ids[1..][i - 1] && lengths[i] == lengths[1..][i - 1];
      assert forall i :: 1 <= i < |ids| ==> CardGenerator.Pick(Rest(picks), i - 1) == CardGenerator.Pick(picks, i);
      assert ids[0] !in ids[1..];
    }
  }

  /**
    `autoDrawNumbers(now)`: one draw for every selected round, finishing it when its
    snapshot held 74 or more numbers.
   */
  function AutoDrawNumbers(db: Db, order: seq<nat>, picks: seq<nat>, now: int): (db': Db)
    requires Lists(order, DrawCandidates(db))
    ensures db' == db.(rounds := db'.rounds, draws := db'.draws)
    ensures db'.rounds.Keys == db.rounds.Keys
    ensures forall j :: j in db.rounds && j !in DrawCandidates(db) ==> db'.rounds[j] == db.rounds[j]
    ensures forall i :: 0 <= i < |order| ==>
      (order[i] in db.rounds &&
       db'.rounds[order[i]] == AutoDrawRound(db.rounds[order[i]], |db.rounds[order[i]].drawn|, CardGenerator.Pick(picks, i), now))
  {
    assert forall i :: 0 <= i < |order| ==> order[i] in DrawCandidates(db);
    var lengths := SnapshotLengths(db, order);
    var db' := AutoDrawRows(db, order, lengths, picks, now);
    AutoDrawRowsEffect(db, order, lengths, picks, now);
    assert forall i :: 0 <= i < |order| ==>
      db'.rounds[order[i]] == AutoDrawRound(db.rounds[order[i]], lengths[i], CardGenerator.Pick(picks, i), now);
    db'
  }

  /** The number of drawn numbers each listed round had when the rows were selected. */
  function SnapshotLengths(db: Db, order: seq<nat>): (lengths: seq<nat>)
    requires forall i :: 0 <= i < |order| ==> order[i] in db.rounds
    ensures |lengths| == |order| && forall i :: 0 <= i < |order| ==> lengths[i] == |db.rounds[order[i]].drawn|
  {
    seq(|order|, i requires 0 <= i < |order| => |db.rounds[order[i]].drawn|)
  }

  /**
    Every selected round gets exactly one more number, still duplicate-free, and is
    finished exactly when it had 74 or more numbers before the tick.
   */
  lemma AutoDrawOutcome(db: Db, order: seq<nat>, picks: seq<nat>, now: int, i: nat)
    requires Lists(order, DrawCandidates(db))
    requires i < |order| && order[i] in db.rounds && RoundManager.ValidDrawn(db.rounds[order[i]].drawn)
    ensures var before := db.rounds[order[i]];
      var after := AutoDrawNumbers(db, order, picks, now).rounds[order[i]];
      && |after.drawn| == |before.drawn| + 1
      && RoundManager.ValidDrawn(after.drawn)
      && (after.status == Finished <==> |before.drawn| >= 74)
      && (after.status != Finished ==> after.status == Drawing)
  {
    assert order[i] in DrawCandidates(db);
    var before := db.rounds[order[i]];
    var after := AutoDrawNumbers(db, order, picks, now).rounds[order[i]];
    AutoDrawRoundAppends(before, |before.drawn|, CardGenerator.Pick(picks, i), now);
    assert after.drawn == before.drawn + [after.drawn[|before.drawn|]];
    RoundManager.AppendKeepsValid(before.drawn, after.drawn[|before.drawn|]);
  }

  // ---------------------------------------------------------------- commissions

  /** Paid purchases with no commission row yet. */
  function CommissionCandidates(db: Db): set<nat> {
    set p | p in db.purchases && db.purchases[p].status == Paid
      && !(exists k :: 0 <= k < |db.commissions| && db.commissions[k].purchaseId == p)
  }

  /**
    One row of the commission query: the purchase joined with its establishment and
    that establishment's manager. A purchase whose establishment row is missing
    reads a NULL establishment id, since the joined `e.id` replaces the purchase's.
   */
  datatype CommissionRow = CommissionRow(
    purchaseId: nat, total: real,
    establishmentId: Option<nat>, managerId: Option<nat>,
    estRate: Option<real>, mgrRate: Option<real>)

  function CommissionRowOf(db: Db, p: nat): CommissionRow
    requires p in db.purchases
  {
    var pu := db.purchases[p];
    var est := if pu.establishmentId.Some? && pu.establishmentId.value in db.establishments then pu.establishmentId else None;
    var mgr := if est.Some? then db.establishments[est.value].managerId else None;
    var estRate := if est.Some? then db.establishments[est.value].commissionRate else None;
    var mgrRate := if mgr.Some? && mgr.value in db.managers then db.managers[mgr.value].commissionRate else None;
    CommissionRow(p, pu.totalAmount, est, mgr, estRate, mgrRate)
  }

  /**
    The commission rows one purchase produces: the establishment's share of the
    sale total, then the manager's, each only when the id is present. A NULL rate
    yields an amount of zero and the row is still written.
   */
  function CommissionsFor(row: CommissionRow): (cs: seq<Commission>)
    ensures |cs| == (if PresentId(row.establishmentId) then 1 else 0) + (if PresentId(row.managerId) then 1 else 0)
    ensures forall k :: 0 <= k < |cs| ==> cs[k].purchaseId == row.purchaseId
    ensures PresentId(row.establishmentId) ==>
      cs[0] == Commission(row.purchaseId, ToEstablishment(row.establishmentId.value), row.total * Rate(row.estRate))
    ensures PresentId(row.managerId) ==>
      cs[|cs| - 1] == Commission(row.purchaseId, ToManager(row.managerId.value), row.total * Rate(row.mgrRate))
  {
    (if PresentId(row.establishmentId)
     then [Commission(row.purchaseId, ToEstablishment(row.establishmentId.value), row.total * Rate(row.estRate))]
     else [])
    + (if PresentId(row.managerId)
       then [Commission(row.purchaseId, ToManager(row.managerId.value), row.total * Rate(row.mgrRate))]
       else [])
  }

  /** Establishments and managers differ at most in their commission totals. */
  ghost predicate OnlyTotalsChanged(db: Db, db': Db) {
    && db'.establishments.Keys == db.establishments.Keys
    && db'.managers.Keys == db.managers.Keys
    && (forall e :: e in db.establishments ==>
          db'.establishments[e] == db.establishments[e].(totalCommission := db'.establishments[e].totalCommission))
    && (forall m :: m in db.managers ==>
          db'.managers[m] == db.managers[m].(totalCommission := db'.managers[m].totalCommission))
  }

  /** The inserts and `total_commission` updates for one row; an update of a missing manager matches nothing. */
  function ApplyCommissionRow(db: Db, row: CommissionRow): (db': Db)
    ensures db' == db.(commissions := db'.commissions, establishments := db'.establishments, managers := db'.managers)
    ensures db'.commissions == db.commissions + CommissionsFor(row)
    ensures OnlyTotalsChanged(db, db')
    ensures CommissionsFor(row) == [] ==> db' == db
  {
    var db1 :=
      if PresentId(row.establishmentId) && row.establishmentId.value in db.establishments then
        var e := row.establishmentId.value;
        var est := db.establishments[e];
        db.(establishments := db.establishments[e := est.(totalCommission := est.totalCommission + row.total * Rate(row.estRate))])
      else db;
    var db2 :=
      if PresentId(row.managerId) && row.managerId.value in db1.managers then
        var m := row.managerId.value;
        var mgr := db1.managers[m];
        db1.(managers := db1.managers[m := mgr.(totalCommission := mgr.totalCommission + row.total * Rate(row.mgrRate))])
      else db1;
    db2.(commissions := db.commissions + CommissionsFor(row))
  }

  lemma OnlyTotalsChangedTrans(db: Db, db1: Db, db2: Db)
    requires OnlyTotalsChanged(db, db1) && OnlyTotalsChanged(db1, db2)
    ensures OnlyTotalsChanged(db, db2)
  {
  }

  function AllCommissionsFor(rows: seq<CommissionRow>): seq<Commission> {
    if rows == [] then [] else CommissionsFor(rows[0]) + AllCommissionsFor(rows[1..])
  }

  lemma AppendAssociates<T>(a: seq<T>, b: seq<T>, c: seq<T>)
    ensures a + b + c == a + (b + c)
  {
  }

  function ApplyCommissionRows(db: Db, rows: seq<CommissionRow>): (db': Db)
    ensures db' == db.(commissions := db'.commissions, establishments := db'.establishments, managers := db'.managers)
    ensures db'.commissions == db.commissions + AllCommissionsFor(rows)
    ensures OnlyTotalsChanged(db, db')
    ensures AllCommissionsFor(rows) == [] ==> db' == db
    decreases |rows|
  {
    if rows == [] then db
    else
      var db1 := ApplyCommissionRow(db, rows[0]);
      var db2 := ApplyCommissionRows(db1, rows[1..]);
      OnlyTotalsChangedTrans(db, db1, db2);
      var (head, tail) := (CommissionsFor(rows[0]), AllCommissionsFor(rows[1..]));
      assert AllCommissionsFor(rows) == head + tail;
      AppendAssociates(db.commissions, head, tail);
      assert head + tail == [] ==> head == [] && tail == [];
      db2
  }

  function CommissionRows(db: Db, order: seq<nat>): (rows: seq<CommissionRow>)
    requires forall p :: p in order ==> p in db.purchases
    ensures |rows| == |order|
    ensures forall i :: 0 <= i < |order| ==> rows[i] == CommissionRowOf(db, order[i])
  {
    seq(|order|, i requires 0 <= i < |order| => CommissionRowOf(db, order[i]))
  }

  /** `processCommissions`: the commission rows and totals for every paid purchase without commissions. */
  function ProcessCommissions(db: Db, order: seq<nat>): (db': Db)
    requires Lists(order, CommissionCandidates(db))
    ensures db' == db.(commissions := db'.commissions, establishments := db'.establishments, managers := db'.managers)
    ensures db'.commissions == db.commissions + AllCommissionsFor(CommissionRows(db, order))
    ensures OnlyTotalsChanged(db, db')
  {
    assert forall i :: 0 <= i < |order| ==> order[i] in CommissionCandidates(db);
    ApplyCommissionRows(db, CommissionRows(db, order))
  }

  /** Every commission row produced for a list of purchase rows belongs to one of them. */
  lemma {:induction false} AllCommissionsBelong(rows: seq<CommissionRow>, k: nat)
    requires k < |AllCommissionsFor(rows)|
    ensures exists i :: 0 <= i < |rows| && AllCommissionsFor(rows)[k].purchaseId == rows[i].purchaseId
    decreases |rows|
  {
    var head := CommissionsFor(rows[0]);
    if k >= |head| {
      AllCommissionsBelong(rows[1..], k - |head|);
      var i :| 0 <= i < |rows[1..]| && AllCommissionsFor(rows[1..])[k - |head|].purchaseId == rows[1..][i].purchaseId;
      assert rows[i + 1] == rows[1..][i];
    } else {
      assert AllCommissionsFor(rows)[k] == head[k];
    }
  }

  /** A row whose purchase id appears in none of the produced commissions produced none itself. */
  lemma {:induction false} UnmentionedRowAddsNothing(rows: seq<CommissionRow>, i: nat)
    requires i < |rows|
    requires forall k :: 0 <= k < |AllCommissionsFor(rows)| ==> AllCommissionsFor(rows)[k].purchaseId != rows[i].purchaseId
    ensures CommissionsFor(rows[i]) == []
    decreases |rows|
  {
    var head := CommissionsFor(rows[0]);
    assert forall k :: 0 <= k < |head| ==> AllCommissionsFor(rows)[k] == head[k];
    if i > 0 {
      assert rows[1..][i - 1] == rows[i];
      assert forall k :: 0 <= k < |AllCommissionsFor(rows[1..])| ==>
        AllCommissionsFor(rows[1..])[k] == AllCommissionsFor(rows)[|head| + k];
      UnmentionedRowAddsNothing(rows[1..], i - 1);
    }
  }

  /** Rows that produce no commission add nothing, whatever their number. */
  lemma {:induction false} EmptyRowsAddNothing(rows: seq<CommissionRow>)
    requires forall i :: 0 <= i < |rows| ==> CommissionsFor(rows[i]) == []
    ensures AllCommissionsFor(rows) == []
    decreases |rows|
  {
    if rows != [] {
      EmptyRowsAddNothing(rows[1..]);
    }
  }

  /** The query reads the same row from a state whose establishments and managers differ only in totals. */
  lemma CommissionRowStable(db: Db, db': Db, p: nat)
    requires p in db.purchases && db'.purchases == db.purchases
    requires OnlyTotalsChanged(db, db')
    ensures CommissionRowOf(db', p) == CommissionRowOf(db, p)
  {
  }

  /**
    Running the job again on its own result adds nothing: every purchase still
    without commissions is one that produces none.
   */
  lemma ProcessCommissionsRerunAddsNothing(db: Db, order: seq<nat>, order2: seq<nat>)
    requires Lists(order, CommissionCandidates(db))
    requires Lists(order2, CommissionCandidates(ProcessCommissions(db, order)))
    ensures ProcessCommissions(ProcessCommissions(db, order), order2) == ProcessCommissions(db, order)
  {
    var db' := ProcessCommissions(db, order);
    var rows := CommissionRows(db, order);
    var rows2 := CommissionRows(db', order2);
    forall j | 0 <= j < |rows2|
      ensures CommissionsFor(rows2[j]) == []
    {
      var p := order2[j];
      assert p in CommissionCandidates(db');
      assert p in CommissionCandidates(db) by {
        forall k | 0 <= k < |db.commissions|
          ensures db.commissions[k].purchaseId != p
        {
          assert db'.commissions[k] == db.commissions[k];
        }
      }
      var i :| 0 <= i < |order| && order[i] == p;
      CommissionRowStable(db, db', p);
      forall k | 0 <= k < |AllCommissionsFor(rows)|
        ensures AllCommissionsFor(rows)[k].purchaseId != rows[i].purchaseId
      {
        assert db'.commissions[|db.commissions| + k] == AllCommissionsFor(rows)[k];
      }
      UnmentionedRowAddsNothing(rows, i);
    }
    EmptyRowsAddNothing(rows2);
  }

  // ---------------------------------------------------------------- cards for paid purchases

  /** Paid purchases no card points at yet. */
  function PaidCandidates(db: Db): set<nat> {
    set p | p in db.purchases && db.purchases[p].status == Paid
      && !(exists c :: c in db.cards && db.cards[c].purchaseId == Some(p))
  }

  /** What `sendCardsViaWhatsApp` is asked to deliver: the number, the card codes and the round. */
  datatype CardsNotice = CardsNotice(phone: string, codes: seq<string>, roundId: nat)

  /** The round update after a purchase's cards; an update of a missing round matches nothing. */
  function AddSale(db: Db, pu: Purchase): (db': Db)
    ensures db' == db.(rounds := db'.rounds) && db'.rounds.Keys == db.rounds.Keys
    ensures forall k :: k in db.rounds && k != pu.roundId ==> db'.rounds[k] == db.rounds[k]
    ensures pu.roundId in db.rounds ==> db'.rounds[pu.roundId] == AddFixedSplit(db.rounds[pu.roundId], pu.quantity, pu.totalAmount)
  {
    if pu.roundId in db.rounds then
      db.(rounds := db.rounds[pu.roundId := AddFixedSplit(db.rounds[pu.roundId], pu.quantity, pu.totalAmount)])
    else db
  }

  /** The cards sold to round `k` by a list of purchases. */
  function QuantityFor(rows: seq<Purchase>, k: nat): int {
    if rows == [] then 0 else (if rows[0].roundId == k then rows[0].quantity else 0) + QuantityFor(rows[1..], k)
  }

  /** The sales total of round `k` over a list of purchases. */
  function TotalFor(rows: seq<Purchase>, k: nat): real {
    if rows == [] then 0.0 else (if rows[0].roundId == k then rows[0].totalAmount else 0.0) + TotalFor(rows[1..], k)
  }

  /** Two fixed-split updates add up to one for the sums. */
  lemma FixedSplitComposes(r: Round, q1: int, t1: real, q2: int, t2: real)
    ensures AddFixedSplit(AddFixedSplit(r, q1, t1), q2, t2) == AddFixedSplit(r, q1 + q2, t1 + t2)
  {
  }

  lemma FixedSplitOfNothing(r: Round)
    ensures AddFixedSplit(r, 0, 0.0) == r
  {
  }

  /**
    The cards a sweep adds: batch i holds as many fresh generated cards of purchase
    `order[i]` as its quantity asks for, every new card is in some batch, and stored
    cards are untouched.
   */
  ghost predicate AddsBatches(db: Db, db': Db, order: seq<nat>, rows: seq<Purchase>, batches: seq<seq<nat>>) {
    && |order| == |rows| == |batches|
    && (forall i :: 0 <= i < |batches| ==> |batches[i]| == (if rows[i].quantity > 0 then rows[i].quantity else 0))
    && (forall i, k :: 0 <= i < |batches| && 0 <= k < |batches[i]| ==>
          && batches[i][k] !in db.cards && batches[i][k] in db'.cards
          && CardGenerator.IsGeneratedCard(db'.cards[batches[i][k]], rows[i].roundId, Some(order[i])))
    && (forall c :: c in db'.cards && c !in db.cards ==> exists i :: 0 <= i < |batches| && c in batches[i])
    && (forall c :: c in db.cards ==> c in db'.cards && db'.cards[c] == db.cards[c])
  }

  /** The per-card facts of `AddsBatches` for a batch added in front of the others. */
  lemma AddsBatchesConsElems(db: Db, db1: Db, db2: Db, db3: Db, order: seq<nat>, rows: seq<Purchase>, ids: seq<nat>, batches: seq<seq<nat>>)
    requires |order| == |rows| > 0
    requires CardGenerator.AddsCards(db, db1, ids, rows[0].roundId, Some(order[0]))
    requires db2.cards == db1.cards
    requires AddsBatches(db2, db3, order[1..], rows[1..], batches)
    ensures forall i, k :: 0 <= i < |[ids] + batches| && 0 <= k < |([ids] + batches)[i]| ==>
      && ([ids] + batches)[i][k] !in db.cards && ([ids] + batches)[i][k] in db3.cards
      && CardGenerator.IsGeneratedCard(db3.cards[([ids] + batches)[i][k]], rows[i].roundId, Some(order[i]))
  {
    var all := [ids] + batches;
    forall i, k | 0 <= i < |all| && 0 <= k < |all[i]|
      ensures && all[i][k] !in db.cards && all[i][k] in db3.cards
              && CardGenerator.IsGeneratedCard(db3.cards[all[i][k]], rows[i].roundId, Some(order[i]))
    {
      if i == 0 {
        assert all[i][k] == ids[k];
      } else {
        assert all[i] == batches[i - 1] && rows[i] == rows[1..][i - 1] && order[i] == order[1..][i - 1];
      }
    }
  }

  lemma AddsBatchesCons(db: Db, db1: Db, db2: Db, db3: Db, order: seq<nat>, rows: seq<Purchase>, ids: seq<nat>, batches: seq<seq<nat>>)
    requires |order| == |rows| > 0
    requires CardGenerator.AddsCards(db, db1, ids, rows[0].roundId, Some(order[0]))
    requires |ids| == (if rows[0].quantity > 0 then rows[0].quantity else 0)
    requires db2.cards == db1.cards
    requires AddsBatches(db2, db3, order[1..], rows[1..], batches)
    ensures AddsBatches(db, db3, order, rows, [ids] + batches)
  {
    AddsBatchesConsElems(db, db1, db2, db3, order, rows, ids, batches);
    var all := [ids] + batches;
    forall c | c in db3.cards && c !in db.cards
      ensures exists i :: 0 <= i < |all| && c in all[i]
    {
      if c in db2.cards {
        assert c in ids && all[0] == ids;
      } else {
        var j :| 0 <= j < |batches| && c in batches[j];
        assert all[j + 1] == batches[j];
      }
    }
    assert forall i :: 1 <= i < |all| ==> all[i] == batches[i - 1] && rows[i] == rows[1..][i - 1];
  }

  /** The round updates of the first row followed by those of the rest add up to those of all rows. */
  lemma SalesCompose(rounds: map<nat, Round>, rounds2: map<nat, Round>, rounds3: map<nat, Round>, rows: seq<Purchase>)
    requires rows != []
    requires rounds2.Keys == rounds.Keys
    requires forall k :: k in rounds && k != rows[0].roundId ==> rounds2[k] == rounds[k]
    requires rows[0].roundId in rounds ==> rounds2[rows[0].roundId] == AddFixedSplit(rounds[rows[0].roundId], rows[0].quantity, rows[0].totalAmount)
    requires forall k :: k in rounds2 ==> k in rounds3 && rounds3[k] == AddFixedSplit(rounds2[k], QuantityFor(rows[1..], k), TotalFor(rows[1..], k))
    ensures forall k :: k in rounds ==> rounds3[k] == AddFixedSplit(rounds[k], QuantityFor(rows, k), TotalFor(rows, k))
  {
    forall k | k in rounds
      ensures rounds3[k] == AddFixedSplit(rounds[k], QuantityFor(rows, k), TotalFor(rows, k))
    {
      if k == rows[0].roundId {
        FixedSplitComposes(rounds[k], rows[0].quantity, rows[0].totalAmount, QuantityFor(rows[1..], k), TotalFor(rows[1..], k));
      } else {
        assert QuantityFor(rows, k) == QuantityFor(rows[1..], k) && TotalFor(rows, k) == TotalFor(rows[1..], k);
      }
    }
  }

  /** The loop of `processPaidPurchases` over the selected rows; each purchase takes its own list of card draws. */
  function ProcessPaidRows(db: Db, order: seq<nat>, rows: seq<Purchase>, draws: seq<seq<CardGenerator.CardDraw>>): (r: Option<(Db, seq<seq<nat>>)>)
    requires |order| == |rows|
    ensures r.Some? ==> AddsBatches(db, r.value.0, order, rows, r.value.1)
    ensures r.Some? ==> r.value.0 == db.(cards := r.value.0.cards, rounds := r.value.0.rounds)
    ensures r.Some? ==> r.value.0.rounds.Keys == db.rounds.Keys
    ensures r.Some? ==> forall k :: k in db.rounds ==>
      r.value.0.rounds[k] == AddFixedSplit(db.rounds[k], QuantityFor(rows, k), TotalFor(rows, k))
    ensures r.Some? && CardGenerator.UniqueCodes(db) ==> CardGenerator.UniqueCodes(r.value.0)
    decreases |rows|
  {
    if rows == [] then
      assert forall k :: k in db.rounds ==> AddFixedSplit(db.rounds[k], 0, 0.0) == db.rounds[k];
      Some((db, []))
    else
      var pu := rows[0];
      var first := if draws == [] then [] else draws[0];
      match CardGenerator.GenerateCards(db, pu.roundId, Some(order[0]), pu.quantity, first)
      case None => None
      case Some((db1, ids)) =>
        var db2 := AddSale(db1, pu);
        match ProcessPaidRows(db2, order[1..], rows[1..], if draws == [] then [] else draws[1..])
        case None => None
        case Some((db3, batches)) =>
          AddsBatchesCons(db, db1, db2, db3, order, rows, ids, batches);
          SalesCompose(db.rounds, db2.rounds, db3.rounds, rows);
          Some((db3, [ids] + batches))
  }

  function Codes(cards: map<nat, Card>, ids: seq<nat>): (codes: seq<string>)
    requires forall k :: 0 <= k < |ids| ==> ids[k] in cards
    ensures |codes| == |ids| && forall k :: 0 <= k < |ids| ==> codes[k] == cards[ids[k]].code
  {
    seq(|ids|, k requires 0 <= k < |ids| => cards[ids[k]].code)
  }

  /** `if (purchase.customer_whatsapp)`: a NULL or empty number sends nothing. */
  predicate HasWhatsapp(pu: Purchase) {
    pu.customerWhatsapp.Some? && pu.customerWhatsapp.value != ""
  }

  /** The notices of a sweep, in row order: one per purchase with a WhatsApp number. */
  function Notices(cards: map<nat, Card>, rows: seq<Purchase>, batches: seq<seq<nat>>): (ns: seq<CardsNotice>)
    requires |rows| == |batches|
    requires forall i, k :: 0 <= i < |batches| && 0 <= k < |batches[i]| ==> batches[i][k] in cards
    ensures forall i :: 0 <= i < |rows| && HasWhatsapp(rows[i]) ==>
      CardsNotice(rows[i].customerWhatsapp.value, Codes(cards, batches[i]), rows[i].roundId) in ns
    ensures forall n :: n in ns ==> exists i :: (0 <= i < |rows| && HasWhatsapp(rows[i])
      && n == CardsNotice(rows[i].customerWhatsapp.value, Codes(cards, batches[i]), rows[i].roundId))
    decreases |rows|
  {
    if rows == [] then []
    else
      var rest := Notices(cards, rows[1..], batches[1..]);
      assert forall i :: 1 <= i < |rows| ==> rows[i] == rows[1..][i - 1] && batches[i] == batches[1..][i - 1];
      assert forall n :: n in rest ==> exists i :: (0 <= i < |rows| && HasWhatsapp(rows[i])
        && n == CardsNotice(rows[i].customerWhatsapp.value, Codes(cards, batches[i]), rows[i].roundId)) by {
        forall n | n in rest
          ensures exists i :: (0 <= i < |rows| && HasWhatsapp(rows[i])
            && n == CardsNotice(rows[i].customerWhatsapp.value, Codes(cards, batches[i]), rows[i].roundId))
        {
          var j :| 0 <= j < |rows[1..]| && HasWhatsapp(rows[1..][j])
            && n == CardsNotice(rows[1..][j].customerWhatsapp.value, Codes(cards, batches[1..][j]), rows[1..][j].roundId);
          assert rows[j + 1] == rows[1..][j] && batches[j + 1] == batches[1..][j];
        }
      }
      if HasWhatsapp(rows[0])
      then [CardsNotice(rows[0].customerWhatsapp.value, Codes(cards, batches[0]), rows[0].roundId)] + rest
      else rest
  }

  datatype PaidOutcome = PaidOutcome(db: Db, batches: seq<seq<nat>>, notices: seq<CardsNotice>)

  function PaidRows(db: Db, order: seq<nat>): (rows: seq<Purchase>)
    requires forall p :: p in order ==> p in db.purchases
    ensures |rows| == |order| && forall i :: 0 <= i < |order| ==> rows[i] == db.purchases[order[i]]
  {
    seq(|order|, i requires 0 <= i < |order| => db.purchases[order[i]])
  }

  /**
    `processPaidPurchases`: cards for every paid purchase without cards, the fixed
    split added to its round, and a WhatsApp notice when the purchase has a number.
    `None` only when the supplied card draws run out.
   */
  function ProcessPaidPurchases(db: Db, order: seq<nat>, draws: seq<seq<CardGenerator.CardDraw>>): (r: Option<PaidOutcome>)
    requires Lists(order, PaidCandidates(db))
    ensures r.Some? ==> AddsBatches(db, r.value.db, order, PaidRows(db, order), r.value.batches)
    ensures r.Some? ==> r.value.db == db.(cards := r.value.db.cards, rounds := r.value.db.rounds)
    ensures r.Some? ==> r.value.db.rounds.Keys == db.rounds.Keys
    ensures r.Some? ==> forall k :: k in db.rounds ==>
      r.value.db.rounds[k] == AddFixedSplit(db.rounds[k], QuantityFor(PaidRows(db, order), k), TotalFor(PaidRows(db, order), k))
    ensures r.Some? && CardGenerator.UniqueCodes(db) ==> CardGenerator.UniqueCodes(r.value.db)
    ensures r.Some? ==> r.value.notices == Notices(r.value.db.cards, PaidRows(db, order), r.value.batches)
  {
    var rows := PaidRows(db, order);
    match ProcessPaidRows(db, order, rows, draws)
    case None => None
    case Some((db', batches)) => Some(PaidOutcome(db', batches, Notices(db'.cards, rows, batches)))
  }

  /** A listed purchase with a positive quantity has a card afterwards. */
  lemma BatchGivesCard(db: Db, db': Db, order: seq<nat>, rows: seq<Purchase>, batches: seq<seq<nat>>, i: nat)
    requires AddsBatches(db, db', order, rows, batches)
    requires i < |order| && rows[i].quantity > 0
    ensures exists c :: c in db'.cards && db'.cards[c].purchaseId == Some(order[i])
  {
    var c := batches[i][0];
    assert db'.cards[c].purchaseId == Some(order[i]);
  }

  /** A listed purchase with no positive quantity gets no card, and neither does an unlisted one that had none. */
  lemma BatchGivesNoCard(db: Db, db': Db, order: seq<nat>, rows: seq<Purchase>, batches: seq<seq<nat>>, p: nat)
    requires AddsBatches(db, db', order, rows, batches)
    requires forall i, j :: 0 <= i < j < |order| ==> order[i] != order[j]
    requires forall i :: 0 <= i < |order| && order[i] == p ==> rows[i].quantity <= 0
    requires forall c :: c in db.cards ==> db.cards[c].purchaseId != Some(p)
    ensures forall c :: c in db'.cards ==> db'.cards[c].purchaseId != Some(p)
  {
    forall c | c in db'.cards
      ensures db'.cards[c].purchaseId != Some(p)
    {
      if c !in db.cards {
        var j :| 0 <= j < |batches| && c in batches[j];
        var k :| 0 <= k < |batches[j]| && batches[j][k] == c;
        assert rows[j].quantity > 0;
        assert order[j] != p;
      }
    }
  }

  /**
    After a sweep the only paid purchases still without cards are those whose
    quantity asked for none.
   */
  lemma ProcessPaidPurchasesLeavesOnlyEmpty(db: Db, order: seq<nat>, draws: seq<seq<CardGenerator.CardDraw>>)
    requires Lists(order, PaidCandidates(db))
    requires ProcessPaidPurchases(db, order, draws).Some?
    ensures var db' := ProcessPaidPurchases(db, order, draws).value.db;
      PaidCandidates(db') == set p | p in PaidCandidates(db) && db.purchases[p].quantity <= 0
  {
    var o := ProcessPaidPurchases(db, order, draws).value;
    var db' := o.db;
    var rows := PaidRows(db, order);
    assert db'.purchases == db.purchases;
    forall p | p in db.purchases
      ensures p in PaidCandidates(db') <==> p in PaidCandidates(db) && db.purchases[p].quantity <= 0
    {
      if p in PaidCandidates(db) {
        var i :| 0 <= i < |order| && order[i] == p;
        if db.purchases[p].quantity > 0 {
          BatchGivesCard(db, db', order, rows, o.batches, i);
        } else {
          BatchGivesNoCard(db, db', order, rows, o.batches, p);
        }
      }
    }
  }
}
