/**
  `services/paymentService.js`: routing a payment to a gateway, mapping gateway
  statuses to purchase statuses, settling a paid purchase, the status update shared
  by polling and webhooks, refunds, and the local effects of creating a charge. The
  gateway clients are not modelled: what they return is a parameter, and a failed
  call is an `Err` parameter.
 */
module PaymentService {
  import opened Wrappers
  import opened Store
  import opened Json
  import Keys
  import Text
  import PagSeguro
  import PixService

  /** The message JavaScript throws when a property of `undefined` is read. */
  function UndefinedRead(property: string): string {
    "Cannot read properties of undefined (reading '" + property + "')"
  }

  // ---------------------------------------------------------------- gateway selection

  /** What `getActiveGatewayConfig` throws when the `gateway_config` row is missing. */
  const NoGatewayConfig := "Configuração de gateway não encontrada"

  /** The gateways the service has clients for. */
  predicate KnownGateway(gateway: string) {
    gateway == "asaas" || gateway == "pagseguro"
  }

  /**
    `selectGateway`: the configuration is read first, so a missing row fails whatever
    the method; PIX goes to the active gateway, defaulting to Asaas; cards always go
    to PagSeguro; any other method fails.
   */
  function SelectGateway(settings: Settings, payMethod: string): (r: Result<string>)
    ensures settings.gatewayConfig.None? ==> r.Err?
    ensures settings.gatewayConfig.Some? ==> (r.Ok? <==> payMethod == "pix" || payMethod == "credit_card")
    ensures r.Ok? && payMethod == "credit_card" ==> r.value == "pagseguro"
    ensures r.Ok? && payMethod == "pix" ==>
      var active := settings.gatewayConfig.value;
      (active.Some? && active.value != "" ==> r.value == active.value)
      && (!(active.Some? && active.value != "") ==> r.value == "asaas")
  {
    if settings.gatewayConfig.None? then Err(NoGatewayConfig)
    else if payMethod == "pix" then
      var active := settings.gatewayConfig.value;
      Ok(if active.Some? && active.value != "" then active.value else "asaas")
    else if payMethod == "credit_card" then Ok("pagseguro")
    else Err("Método de pagamento inválido")
  }

  /** Card payments do not depend on which gateway is active. */
  lemma CardGatewayIgnoresConfig(s1: Settings, s2: Settings)
    requires s1.gatewayConfig.Some? && s2.gatewayConfig.Some?
    ensures SelectGateway(s1, "credit_card") == SelectGateway(s2, "credit_card") == Ok("pagseguro")
  {
  }

  // ---------------------------------------------------------------- status mapping

  /** Asaas's `statusMap`. */
  const AsaasStatuses: map<string, PaymentStatus> := map[
    "PENDING" := Pending, "RECEIVED" := Paid, "CONFIRMED" := Paid, "OVERDUE" := Expired,
    "REFUNDED" := Refunded, "RECEIVED_IN_CASH" := Paid, "REFUND_REQUESTED" := Refunding,
    "CHARGEBACK_REQUESTED" := Disputed, "CHARGEBACK_DISPUTE" := Disputed,
    "AWAITING_CHARGEBACK_REVERSAL" := Disputed]

  /** PagSeguro's `statusMap`; its 'cancelled' is `Voided`. */
  const PagSeguroStatuses: map<string, PaymentStatus> := map[
    "PENDING" := Pending, "PAID" := Paid, "CONFIRMED" := Paid, "DECLINED" := Failed,
    "CANCELED" := Voided, "AUTHORIZED" := Paid]

  /** `statusMap[key] || 'pending'`. */
  function Lookup(table: map<string, PaymentStatus>, key: string): (r: PaymentStatus)
    ensures key in table ==> r == table[key]
    ensures key !in table ==> r == Pending
  {
    if key in table then table[key] else Pending
  }

  /**
    `mapGatewayStatus`, total: each gateway's table applies, and any unlisted status or
    unknown gateway yields pending.
   */
  function MapGatewayStatus(gatewayStatus: string, gateway: string): (r: PaymentStatus)
    ensures !KnownGateway(gateway) ==> r == Pending
    ensures gateway == "asaas" ==> r == Lookup(AsaasStatuses, gatewayStatus)
    ensures gateway == "pagseguro" ==> r == Lookup(PagSeguroStatuses, gatewayStatus)
  {
    if gateway == "asaas" then Lookup(AsaasStatuses, gatewayStatus)
    else if gateway == "pagseguro" then Lookup(PagSeguroStatuses, gatewayStatus)
    else Pending
  }

  /** Which gateway statuses count as paid, and which as failed. */
  lemma MapGatewayStatusPaid(s: string)
    ensures MapGatewayStatus(s, "asaas") == Paid <==> s == "RECEIVED" || s == "CONFIRMED" || s == "RECEIVED_IN_CASH"
    ensures MapGatewayStatus(s, "pagseguro") == Paid <==> s == "PAID" || s == "CONFIRMED" || s == "AUTHORIZED"
    ensures MapGatewayStatus(s, "asaas") != Failed
    ensures MapGatewayStatus(s, "pagseguro") == Failed <==> s == "DECLINED"
  {
  }

  /** A PagSeguro order's status as polling delivers it to the table: normalised first. */
  function PolledPagSeguroStatus(orderStatus: string): (r: PaymentStatus)
    ensures r == Paid <==> orderStatus == "PAID"
    ensures r != Failed && (r == Paid || r == Pending)
  {
    MapGatewayStatusPaid(PagSeguro.NormaliseStatus(orderStatus));
    MapGatewayStatus(PagSeguro.NormaliseStatus(orderStatus), "pagseguro")
  }

  /**
    As written, polling turns a declined or cancelled PagSeguro order into FAILED,
    which the table does not list, so the purchase stays pending.
   */
  lemma PolledDeclineStaysPending()
    ensures PolledPagSeguroStatus("DECLINED") == Pending
    ensures PolledPagSeguroStatus("CANCELED") == Pending
    ensures MapGatewayStatus("DECLINED", "pagseguro") == Failed
  {
  }

  /** The status mapping the rest of the model uses: as written, except that PagSeguro's FAILED maps to failed. */
  function MapGatewayStatusFixed(gatewayStatus: string, gateway: string): (r: PaymentStatus)
    ensures !(gateway == "pagseguro" && gatewayStatus == "FAILED") ==> r == MapGatewayStatus(gatewayStatus, gateway)
    ensures gateway == "pagseguro" && gatewayStatus == "FAILED" ==> r == Failed
  {
    if gateway == "pagseguro" && gatewayStatus == "FAILED" then Failed
    else MapGatewayStatus(gatewayStatus, gateway)
  }

  /** With the fix, a polled PagSeguro order is paid iff it was PAID and failed iff it was declined or cancelled. */
  lemma PolledStatusFixed(orderStatus: string)
    ensures var r := MapGatewayStatusFixed(PagSeguro.NormaliseStatus(orderStatus), "pagseguro");
      && (r == Paid <==> orderStatus == "PAID")
      && (r == Failed <==> orderStatus == "DECLINED" || orderStatus == "CANCELED")
      && (r == Paid || r == Failed || r == Pending)
  {
    MapGatewayStatusPaid(PagSeguro.NormaliseStatus(orderStatus));
  }

  // ---------------------------------------------------------------- settlement

  /**
    The row the settlement query reads. The round's establishment and manager
    replace the purchase's own columns of the same name, and a missing round or
    party reads as NULL.
   */
  datatype SettlementRow = SettlementRow(
    purchase: Purchase,
    establishmentId: Option<nat>, managerId: Option<nat>, charityId: Option<nat>,
    estRate: Option<real>, mgrRate: Option<real>)

  function SettlementRowOf(db: Db, pid: nat): (row: SettlementRow)
    requires pid in db.purchases
    ensures row.purchase == db.purchases[pid]
    ensures db.purchases[pid].roundId !in db.rounds ==> row.establishmentId == row.managerId == row.charityId == None
    ensures db.purchases[pid].roundId in db.rounds ==>
      var r := db.rounds[db.purchases[pid].roundId];
      row.establishmentId == r.establishmentId && row.managerId == r.managerId && row.charityId == r.charityId
  {
    var p := db.purchases[pid];
    var est := if p.roundId in db.rounds then db.rounds[p.roundId].establishmentId else None;
    var mgr := if p.roundId in db.rounds then db.rounds[p.roundId].managerId else None;
    var charity := if p.roundId in db.rounds then db.rounds[p.roundId].charityId else None;
    var estRate := if est.Some? && est.value in db.establishments then db.establishments[est.value].commissionRate else None;
    var mgrRate := if mgr.Some? && mgr.value in db.managers then db.managers[mgr.value].commissionRate else None;
    SettlementRow(p, est, mgr, charity, estRate, mgrRate)
  }

  datatype Shares = Shares(prize: real, charity: real, platform: real, commission: real, establishment: real, manager: real)

  /**
    The split of a sale: prize, charity, platform and commission are percentages of
    the total, and the establishment's and manager's shares are percentages of the
    commission (a NULL rate giving zero).
   */
  function SplitShares(total: real, split: SplitConfig, estRate: Option<real>, mgrRate: Option<real>): (s: Shares)
    ensures s.prize * 100.0 == total * split.prizePct && s.charity * 100.0 == total * split.charityPct
    ensures s.platform * 100.0 == total * split.platformPct && s.commission * 100.0 == total * split.commissionPct
    ensures s.establishment == s.commission * Rate(estRate) && s.manager == s.commission * Rate(mgrRate)
  {
    var commission := total * (split.commissionPct / 100.0);
    Shares(total * (split.prizePct / 100.0), total * (split.charityPct / 100.0), total * (split.platformPct / 100.0),
           commission, commission * Rate(estRate), commission * Rate(mgrRate))
  }

  /** When the percentages add up to 100 the four parts hand out the whole sale. */
  lemma SplitSharesWhole(total: real, split: SplitConfig, estRate: Option<real>, mgrRate: Option<real>)
    requires split.prizePct + split.charityPct + split.platformPct + split.commissionPct == 100.0
    ensures var s := SplitShares(total, split, estRate, mgrRate);
      s.prize + s.charity + s.platform + s.commission == total
  {
    var s := SplitShares(total, split, estRate, mgrRate);
    assert (s.prize + s.charity + s.platform + s.commission) * 100.0
      == total * (split.prizePct + split.charityPct + split.platformPct + split.commissionPct);
  }

  /** What settling does to one round. */
  function CreditRound(r: Round, total: real, s: Shares): Round {
    r.(totalSales := r.totalSales + total, prizePool := r.prizePool + s.prize, charityAmount := r.charityAmount + s.charity)
  }

  /** `UPDATE rounds … WHERE id = $n`: only the purchase's round changes, and only when it exists. */
  function CreditRounds(rounds: map<nat, Round>, id: nat, total: real, s: Shares): (t: map<nat, Round>)
    ensures t.Keys == rounds.Keys
    ensures forall k :: k in rounds ==> t[k] == if k == id then CreditRound(rounds[k], total, s) else rounds[k]
  {
    if id in rounds then rounds[id := CreditRound(rounds[id], total, s)] else rounds
  }

  /** `if (establishment_id) UPDATE establishments SET balance = balance + $1 …`. */
  function CreditEstablishment(t: map<nat, Establishment>, id: Option<nat>, amount: real): (t': map<nat, Establishment>)
    ensures t'.Keys == t.Keys
    ensures forall e :: e in t ==> t'[e] == if PresentId(id) && e == id.value then t[e].(balance := t[e].balance + amount) else t[e]
  {
    if PresentId(id) && id.value in t then t[id.value := t[id.value].(balance := t[id.value].balance + amount)] else t
  }

  /** `if (manager_id) UPDATE managers SET balance = balance + $1 …`. */
  function CreditManager(t: map<nat, Manager>, id: Option<nat>, amount: real): (t': map<nat, Manager>)
    ensures t'.Keys == t.Keys
    ensures forall m :: m in t ==> t'[m] == if PresentId(id) && m == id.value then t[m].(balance := t[m].balance + amount) else t[m]
  {
    if PresentId(id) && id.value in t then t[id.value := t[id.value].(balance := t[id.value].balance + amount)] else t
  }

  /** `if (charity_id) UPDATE charities SET total_received = total_received + $1 …`. */
  function CreditCharity(t: map<nat, Charity>, id: Option<nat>, amount: real): (t': map<nat, Charity>)
    ensures t'.Keys == t.Keys
    ensures forall c :: c in t ==> t'[c] == if PresentId(id) && c == id.value then t[c].(totalReceived := t[c].totalReceived + amount) else t[c]
  {
    if PresentId(id) && id.value in t then t[id.value := t[id.value].(totalReceived := t[id.value].totalReceived + amount)] else t
  }

  /** `UPDATE cards SET status = 'sold' WHERE purchase_id = $1`. */
  function SellCards(cards: map<nat, Card>, pid: nat): (t: map<nat, Card>)
    ensures t.Keys == cards.Keys
    ensures forall c :: c in cards ==> t[c] == if cards[c].purchaseId == Some(pid) then cards[c].(status := Sold) else cards[c]
  {
    map c | c in cards :: if cards[c].purchaseId == Some(pid) then cards[c].(status := Sold) else cards[c]
  }

  /** The shares a settlement hands out, from the row it reads and the split configuration. */
  function SettlementShares(db: Db, pid: nat): (s: Shares)
    requires pid in db.purchases && db.settings.split.Some?
  {
    var row := SettlementRowOf(db, pid);
    SplitShares(row.purchase.totalAmount, db.settings.split.value, row.estRate, row.mgrRate)
  }

  /** The tables after a settlement: only the five credited tables change, and their keys stay. */
  function Settle(db: Db, pid: nat): (db': Db)
    requires pid in db.purchases && db.settings.split.Some?
    ensures db' == db.(rounds := db'.rounds, cards := db'.cards, establishments := db'.establishments,
                       managers := db'.managers, charities := db'.charities)
    ensures db'.rounds.Keys == db.rounds.Keys && db'.cards.Keys == db.cards.Keys
  {
    var row := SettlementRowOf(db, pid);
    var s := SettlementShares(db, pid);
    db.(rounds := CreditRounds(db.rounds, row.purchase.roundId, row.purchase.totalAmount, s),
        cards := SellCards(db.cards, pid),
        establishments := CreditEstablishment(db.establishments, row.establishmentId, s.establishment),
        managers := CreditManager(db.managers, row.managerId, s.manager),
        charities := CreditCharity(db.charities, row.charityId, s.charity))
  }

  /**
    What a settlement credits: the purchase's round gains the sale, its prize share and
    its charity share; the round's establishment and manager gain their commission
    shares and its charity the charity share, each only when the id is present; the
    purchase's cards are sold. Nothing else in those tables changes.
   */
  lemma SettleEffects(db: Db, pid: nat)
    requires pid in db.purchases && db.settings.split.Some?
    ensures var db' := Settle(db, pid);
      var row := SettlementRowOf(db, pid);
      var total := row.purchase.totalAmount;
      var s := SettlementShares(db, pid);
      && db'.establishments.Keys == db.establishments.Keys && db'.managers.Keys == db.managers.Keys
      && db'.charities.Keys == db.charities.Keys
      && (forall k :: k in db.rounds ==>
            db'.rounds[k] == if k == row.purchase.roundId then CreditRound(db.rounds[k], total, s) else db.rounds[k])
      && (forall e :: e in db.establishments ==>
            db'.establishments[e] == if PresentId(row.establishmentId) && e == row.establishmentId.value
              then db.establishments[e].(balance := db.establishments[e].balance + s.establishment) else db.establishments[e])
      && (forall m :: m in db.managers ==>
            db'.managers[m] == if PresentId(row.managerId) && m == row.managerId.value
              then db.managers[m].(balance := db.managers[m].balance + s.manager) else db.managers[m])
      && (forall c :: c in db.charities ==>
            db'.charities[c] == if PresentId(row.charityId) && c == row.charityId.value
              then db.charities[c].(totalReceived := db.charities[c].totalReceived + s.charity) else db.charities[c])
      && (forall c :: c in db.cards ==>
            db'.cards[c] == if db.cards[c].purchaseId == Some(pid) then db.cards[c].(status := Sold) else db.cards[c])
  {
  }

  /**
    How `processSuccessfulPayment` obtains its transaction client: `db.getClient()` as
    written, a method the connection pool does not have, or `db.connect()`, as every
    other transaction of the service does.
   */
  datatype Client = GetClient | Connect

  /** What the call of the missing `db.getClient` throws. */
  const NoGetClient := "db.getClient is not a function"

  /**
    `processSuccessfulPayment` as written: the client is requested before the `try`,
    from a pool that has no `getClient`, so every call throws before `BEGIN` and
    nothing is read or written.
   */
  function ProcessSuccessfulPayment(db: Db, pid: nat): (r: Result<Db>)
    ensures r == Err(NoGetClient)
  {
    Err(NoGetClient)
  }

  /**
    `processSuccessfulPayment` with the client taken by `db.connect()`: the settlement
    above, in one transaction. A missing purchase or split configuration fails with
    no change.
   */
  function ProcessSuccessfulPaymentFixed(db: Db, pid: nat): (r: Result<Db>)
    ensures r.Err? <==> pid !in db.purchases || db.settings.split.None?
    ensures r.Ok? ==> r.value == Settle(db, pid)
  {
    if pid !in db.purchases then Err("Compra não encontrada")
    else if db.settings.split.None? then Err(UndefinedRead("value"))
    else Ok(Settle(db, pid))
  }

  /** The settlement as written or as corrected. */
  function Process(client: Client, db: Db, pid: nat): Result<Db> {
    if client == GetClient then ProcessSuccessfulPayment(db, pid) else ProcessSuccessfulPaymentFixed(db, pid)
  }

  /** Settlement leaves the round's platform and commission amounts, its status and its draws alone. */
  lemma SettlementSkipsPlatformAndCommission(db: Db, pid: nat)
    requires ProcessSuccessfulPaymentFixed(db, pid).Ok?
    ensures var db' := ProcessSuccessfulPaymentFixed(db, pid).value;
      forall k :: k in db.rounds ==>
        && db'.rounds[k].platformAmount == db.rounds[k].platformAmount
        && db'.rounds[k].commissionAmount == db.rounds[k].commissionAmount
        && db'.rounds[k].status == db.rounds[k].status && db'.rounds[k].drawn == db.rounds[k].drawn
  {
    SettleEffects(db, pid);
  }

  /**
    Settlement has no guard of its own: settling the same purchase twice credits the
    round's sales twice.
   */
  lemma SettlementHasNoGuard(db: Db, pid: nat)
    requires ProcessSuccessfulPaymentFixed(db, pid).Ok?
    requires db.purchases[pid].roundId in db.rounds
    ensures var db1 := ProcessSuccessfulPaymentFixed(db, pid).value;
      && ProcessSuccessfulPaymentFixed(db1, pid).Ok?
      && var db2 := ProcessSuccessfulPaymentFixed(db1, pid).value;
         var k := db.purchases[pid].roundId;
         db2.rounds[k].totalSales == db.rounds[k].totalSales + 2.0 * db.purchases[pid].totalAmount
  {
    var db1 := ProcessSuccessfulPaymentFixed(db, pid).value;
    SettleEffects(db, pid);
    SettleEffects(db1, pid);
  }

  // ---------------------------------------------------------------- status updates

  /** The outcome of a status update: the state, whether settlement ran, and whether it failed. */
  datatype StatusChange = StatusChange(db: Db, settled: bool, failed: bool)

  /** The purchase row after `SET payment_status = $1, paid_at = CASE WHEN $1 = 'paid' THEN NOW() ELSE paid_at END`. */
  function WithStatus(p: Purchase, newStatus: PaymentStatus, now: int): (p': Purchase)
    ensures p'.status == newStatus
    ensures p'.paidAt == (if newStatus == Paid then Some(now) else p.paidAt)
    ensures p' == p.(status := p'.status, paidAt := p'.paidAt)
  {
    p.(status := newStatus, paidAt := if newStatus == Paid then Some(now) else p.paidAt)
  }

  /**
    The update shared by `checkPaymentStatus` and `handlePaymentWebhook`: nothing when
    the status is unchanged; otherwise the new status, and settlement on a change to
    paid. The status update is committed on its own, so it stays when settlement fails.
   */
  function ApplyWith(client: Client, db: Db, pid: nat, newStatus: PaymentStatus, now: int): StatusChange
    requires pid in db.purchases
  {
    var p := db.purchases[pid];
    if newStatus == p.status then StatusChange(db, false, false)
    else
      var db1 := db.(purchases := db.purchases[pid := WithStatus(p, newStatus, now)]);
      if newStatus == Paid && p.status != Paid then
        match Process(client, db1, pid)
        case Ok(db2) => StatusChange(db2, true, false)
        case Err(_) => StatusChange(db1, false, true)
      else StatusChange(db1, false, false)
  }

  /**
    The status update as written: a change is stored with `paid_at` stamped on a change
    to paid, but the settlement that should follow always fails, so a change to paid
    is reported as a failure and leaves everything but the purchase row as it was.
   */
  function ApplyGatewayStatus(db: Db, pid: nat, newStatus: PaymentStatus, now: int): (r: StatusChange)
    requires pid in db.purchases
    ensures r.db == if newStatus == db.purchases[pid].status then db
      else db.(purchases := db.purchases[pid := WithStatus(db.purchases[pid], newStatus, now)])
    ensures !r.settled
    ensures r.failed <==> newStatus == Paid && db.purchases[pid].status != Paid
  {
    ApplyWith(GetClient, db, pid, newStatus, now)
  }

  /**
    The status update with the corrected settlement: a change to paid settles the
    purchase when the split configuration is present and fails otherwise.
   */
  function ApplyGatewayStatusFixed(db: Db, pid: nat, newStatus: PaymentStatus, now: int): (r: StatusChange)
    requires pid in db.purchases
    ensures newStatus == db.purchases[pid].status ==> r == StatusChange(db, false, false)
    ensures r.db.purchases == if newStatus == db.purchases[pid].status then db.purchases
      else db.purchases[pid := WithStatus(db.purchases[pid], newStatus, now)]
    ensures newStatus != db.purchases[pid].status ==>
      var db1 := db.(purchases := db.purchases[pid := WithStatus(db.purchases[pid], newStatus, now)]);
      && (r.settled <==> newStatus == Paid && db.settings.split.Some?)
      && (r.failed <==> newStatus == Paid && db.settings.split.None?)
      && (r.settled ==> r.db == Settle(db1, pid))
      && (!r.settled ==> r.db == db1)
  {
    ApplyWith(Connect, db, pid, newStatus, now)
  }

  /** Either settlement leaves the updated purchase with the new status, so the same update again changes nothing. */
  lemma ApplyWithIsIdempotent(client: Client, db: Db, pid: nat, newStatus: PaymentStatus, now: int, later: int)
    requires pid in db.purchases
    ensures var r := ApplyWith(client, db, pid, newStatus, now);
      && pid in r.db.purchases && r.db.purchases[pid].status == newStatus
      && ApplyWith(client, r.db, pid, newStatus, later) == StatusChange(r.db, false, false)
  {
  }

  /**
    Settlement runs only on a change from another status to paid, and a repeated
    update with the same status changes nothing, as written and as corrected.
   */
  lemma StatusChangeGuard(db: Db, pid: nat, newStatus: PaymentStatus, now: int, later: int)
    requires pid in db.purchases
    ensures var r := ApplyGatewayStatusFixed(db, pid, newStatus, now);
      && (r.settled ==> db.purchases[pid].status != Paid && newStatus == Paid)
      && pid in r.db.purchases && r.db.purchases[pid].status == newStatus
      && ApplyGatewayStatusFixed(r.db, pid, newStatus, later) == StatusChange(r.db, false, false)
    ensures var r := ApplyGatewayStatus(db, pid, newStatus, now);
      && pid in r.db.purchases && r.db.purchases[pid].status == newStatus
      && ApplyGatewayStatus(r.db, pid, newStatus, later) == StatusChange(r.db, false, false)
  {
    ApplyWithIsIdempotent(Connect, db, pid, newStatus, now, later);
    ApplyWithIsIdempotent(GetClient, db, pid, newStatus, now, later);
  }

  /** `paid_at` moves only on a change to paid. */
  lemma PaidAtStampedOnlyWhenPaid(db: Db, pid: nat, newStatus: PaymentStatus, now: int)
    requires pid in db.purchases && newStatus != Paid
    ensures ApplyGatewayStatusFixed(db, pid, newStatus, now).db.purchases[pid].paidAt == db.purchases[pid].paidAt
    ensures ApplyGatewayStatus(db, pid, newStatus, now).db.purchases[pid].paidAt == db.purchases[pid].paidAt
  {
  }

  /** What `checkPaymentStatus` answers: a status, and whether the gateway step failed. */
  datatype StatusReply = StatusReply(status: PaymentStatus, failed: bool)

  /** A transaction id counts only when it is a non-empty string. */
  predicate HasTxId(p: Purchase) {
    p.gatewayTxId.Some? && p.gatewayTxId.value != ""
  }

  /** The status the gateway reports for a purchase, normalised first when it comes from PagSeguro. */
  function GatewayReading(gateway: string, answer: string): string {
    if gateway == "pagseguro" then PagSeguro.NormaliseStatus(answer) else answer
  }

  /** Whether polling reaches the gateway's answer: a transaction id, a known gateway and a successful call. */
  predicate PollAnswered(p: Purchase, gatewayStatus: Result<string>) {
    HasTxId(p) && KnownGateway(p.gateway.GetOr("")) && gatewayStatus.Ok?
  }

  /** Polling with a given status table and settlement; the as-written and the corrected polling differ only in those. */
  function PollWith(db: Db, pid: nat, gatewayStatus: Result<string>, now: int, table: (string, string) -> PaymentStatus,
                    client: Client): Result<(Db, StatusReply)> {
    if pid !in db.purchases then Err("Compra não encontrada")
    else
      var p := db.purchases[pid];
      if !HasTxId(p) then Ok((db, StatusReply(p.status, false)))
      else if !PollAnswered(p, gatewayStatus) then Ok((db, StatusReply(p.status, true)))
      else
        var newStatus := table(GatewayReading(p.gateway.value, gatewayStatus.value), p.gateway.value);
        var change := ApplyWith(client, db, pid, newStatus, now);
        if change.failed then Ok((change.db, StatusReply(p.status, true)))
        else Ok((change.db, StatusReply(newStatus, false)))
  }

  /**
    `checkPaymentStatus`: without a gateway transaction the stored status is returned;
    otherwise the gateway's answer (normalised for PagSeguro) is mapped by
    `mapGatewayStatus` and applied. An unknown gateway or a failing call is caught and
    answered with the stored status; so is the failure of the settlement after a change
    to paid, which as written always fails.
   */
  function CheckPaymentStatus(db: Db, pid: nat, gatewayStatus: Result<string>, now: int): (r: Result<(Db, StatusReply)>)
    ensures r.Err? <==> pid !in db.purchases
    ensures r.Ok? && !PollAnswered(db.purchases[pid], gatewayStatus) ==>
      r.value == (db, StatusReply(db.purchases[pid].status, HasTxId(db.purchases[pid])))
    ensures r.Ok? && PollAnswered(db.purchases[pid], gatewayStatus) ==>
      var gateway := db.purchases[pid].gateway.value;
      var newStatus := MapGatewayStatus(GatewayReading(gateway, gatewayStatus.value), gateway);
      var change := ApplyGatewayStatus(db, pid, newStatus, now);
      && r.value.0 == change.db
      && r.value.1 == (if change.failed then StatusReply(db.purchases[pid].status, true) else StatusReply(newStatus, false))
  {
    PollWith(db, pid, gatewayStatus, now, MapGatewayStatus, GetClient)
  }

  /** Polling with the corrected table, in which PagSeguro's FAILED maps to failed, and the corrected settlement. */
  function CheckPaymentStatusFixed(db: Db, pid: nat, gatewayStatus: Result<string>, now: int): (r: Result<(Db, StatusReply)>)
    ensures r.Err? <==> pid !in db.purchases
    ensures r.Ok? && !PollAnswered(db.purchases[pid], gatewayStatus) ==>
      r.value == (db, StatusReply(db.purchases[pid].status, HasTxId(db.purchases[pid])))
    ensures r.Ok? && PollAnswered(db.purchases[pid], gatewayStatus) ==>
      var gateway := db.purchases[pid].gateway.value;
      var newStatus := MapGatewayStatusFixed(GatewayReading(gateway, gatewayStatus.value), gateway);
      var change := ApplyGatewayStatusFixed(db, pid, newStatus, now);
      && r.value.0 == change.db
      && r.value.1 == (if change.failed then StatusReply(db.purchases[pid].status, true) else StatusReply(newStatus, false))
  {
    PollWith(db, pid, gatewayStatus, now, MapGatewayStatusFixed, Connect)
  }

  /**
    As written, a poll that finds a payment confirmed stores the purchase paid with
    `paid_at` stamped, but settles nothing: no round, card, establishment, manager or
    charity changes, and the reply is the old status with the error.
   */
  lemma PolledPaymentLeftUnsettled(db: Db, pid: nat, gatewayStatus: Result<string>, now: int)
    requires pid in db.purchases && db.purchases[pid].status != Paid
    requires PollAnswered(db.purchases[pid], gatewayStatus)
    requires MapGatewayStatus(GatewayReading(db.purchases[pid].gateway.value, gatewayStatus.value), db.purchases[pid].gateway.value) == Paid
    ensures var r := CheckPaymentStatus(db, pid, gatewayStatus, now);
      && r.Ok? && r.value.1 == StatusReply(db.purchases[pid].status, true)
      && r.value.0 == db.(purchases := r.value.0.purchases)
      && pid in r.value.0.purchases && r.value.0.purchases[pid].status == Paid && r.value.0.purchases[pid].paidAt == Some(now)
  {
  }

  /** The PagSeguro purchases polling can decline: pending, with a transaction id. */
  predicate PendingPagSeguro(db: Db, pid: nat) {
    pid in db.purchases && db.purchases[pid].status == Pending
    && HasTxId(db.purchases[pid]) && db.purchases[pid].gateway == Some("pagseguro")
  }

  /** As written, polling a declined or cancelled PagSeguro order leaves the purchase pending and the state unchanged. */
  lemma PolledDeclineLeavesPurchasePending(db: Db, pid: nat, orderStatus: string, now: int)
    requires PendingPagSeguro(db, pid)
    requires orderStatus == "DECLINED" || orderStatus == "CANCELED"
    ensures CheckPaymentStatus(db, pid, Ok(orderStatus), now) == Ok((db, StatusReply(Pending, false)))
  {
    assert PolledPagSeguroStatus(orderStatus) == Pending;
  }

  /** With the corrected table the same poll marks the purchase failed, and changes nothing else. */
  lemma PolledDeclineFailsPurchase(db: Db, pid: nat, orderStatus: string, now: int)
    requires PendingPagSeguro(db, pid)
    requires orderStatus == "DECLINED" || orderStatus == "CANCELED"
    ensures var r := CheckPaymentStatusFixed(db, pid, Ok(orderStatus), now);
      && r.Ok? && r.value.1 == StatusReply(Failed, false)
      && r.value.0 == db.(purchases := db.purchases[pid := db.purchases[pid].(status := Failed)])
  {
    PolledStatusFixed(orderStatus);
  }

  // ---------------------------------------------------------------- webhooks

  /** A gateway webhook reduced to the transaction id and status the service uses. */
  datatype WebhookEvent = WebhookEvent(txId: JsValue, status: JsValue)

  /** Asaas's `handleWebhook`: destructuring a body without a `payment` object throws. */
  function AsaasEvent(data: JsValue): (r: Result<WebhookEvent>)
    ensures r.Err? <==> Nullish(data) || Nullish(Get(data, "payment"))
    ensures r.Ok? ==> r.value == WebhookEvent(Get(Get(data, "payment"), "id"), Get(Get(data, "payment"), "status"))
  {
    if Nullish(data) || Nullish(Get(data, "payment")) then Err(UndefinedRead("id"))
    else Ok(WebhookEvent(Get(Get(data, "payment"), "id"), Get(Get(data, "payment"), "status")))
  }

  /** PagSeguro's `handleWebhook`: there is no `paymentId`, so `paymentId || orderId` is the order id. */
  function PagSeguroEvent(data: JsValue): (r: Result<WebhookEvent>)
    ensures r.Err? <==> Nullish(data)
    ensures r.Ok? ==> r.value == WebhookEvent(Get(data, "id"), Get(PagSeguro.First(Get(data, "charges")), "status"))
  {
    match PagSeguro.HandleWebhook(data)
    case Err(e) => Err(e)
    case Ok(fields) => Ok(WebhookEvent(fields.orderId, fields.status))
  }

  /** The key a transaction id matches: a non-empty string. */
  function TxKey(v: JsValue): Option<string> {
    if v.JStr? && v.s != "" then Some(v.s) else None
  }

  predicate MatchesTx(p: Purchase, tx: string, gateway: string) {
    p.gatewayTxId == Some(tx) && p.gateway == Some(gateway)
  }

  /** The purchase a webhook refers to: among those matching, the lowest id stands for the first row returned. */
  function FindByGatewayTx(db: Db, tx: string, gateway: string): (r: Option<nat>)
    ensures r.Some? ==> r.value in db.purchases && MatchesTx(db.purchases[r.value], tx, gateway)
    ensures r.Some? ==> forall q :: q in db.purchases && MatchesTx(db.purchases[q], tx, gateway) ==> r.value <= q
    ensures r.None? <==> forall q :: q in db.purchases ==> !MatchesTx(db.purchases[q], tx, gateway)
  {
    var ids := set q | q in db.purchases && MatchesTx(db.purchases[q], tx, gateway) :: q as int;
    if ids == {} then
      assert forall q :: q in db.purchases && MatchesTx(db.purchases[q], tx, gateway) ==> (q as int) in ids;
      None
    else
      var m := Keys.SetMin(ids);
      assert m in ids;
      var q :| q in db.purchases && MatchesTx(db.purchases[q], tx, gateway) && q as int == m;
      assert forall q' :: q' in db.purchases && MatchesTx(db.purchases[q'], tx, gateway) ==> (q' as int) in ids;
      Some(q)
  }

  datatype WebhookReply = WebhookReply(success: bool, status: Option<PaymentStatus>)

  /** The gateway's parser applied to a webhook body. */
  function ParseEvent(gateway: string, data: JsValue): Result<WebhookEvent>
    requires KnownGateway(gateway)
  {
    if gateway == "asaas" then AsaasEvent(data) else PagSeguroEvent(data)
  }

  /**
    The purchase a webhook updates and the status it maps to: none for an unknown
    gateway, a body the parser rejects, a missing transaction id or an unmatched one.
   */
  function WebhookTarget(db: Db, gateway: string, data: JsValue): (r: Option<(nat, PaymentStatus)>)
    ensures r.Some? <==>
      && KnownGateway(gateway) && ParseEvent(gateway, data).Ok?
      && TxKey(ParseEvent(gateway, data).value.txId).Some?
      && FindByGatewayTx(db, TxKey(ParseEvent(gateway, data).value.txId).value, gateway).Some?
    ensures r.Some? ==>
      var event := ParseEvent(gateway, data).value;
      && r.value.0 == FindByGatewayTx(db, TxKey(event.txId).value, gateway).value
      && r.value.1 == MapGatewayStatus(PagSeguro.StatusText(event.status), gateway)
  {
    if !KnownGateway(gateway) then None
    else
      var event := ParseEvent(gateway, data);
      if event.Err? || TxKey(event.value.txId).None? then None
      else
        match FindByGatewayTx(db, TxKey(event.value.txId).value, gateway)
        case None => None
        case Some(pid) => Some((pid, MapGatewayStatus(PagSeguro.StatusText(event.value.status), gateway)))
  }

  /** A webhook applied with the settlement as written or as corrected. */
  function WebhookWith(client: Client, db: Db, gateway: string, data: JsValue, now: int): (Db, WebhookReply) {
    match WebhookTarget(db, gateway, data)
    case None => (db, WebhookReply(false, None))
    case Some((pid, newStatus)) =>
      var change := ApplyWith(client, db, pid, newStatus, now);
      (change.db, WebhookReply(!change.failed, if change.failed then None else Some(newStatus)))
  }

  /**
    `handlePaymentWebhook`: without a target it answers failure with no change;
    otherwise the mapped status is applied as in polling. As written the settlement
    after a change to paid always fails, so such a webhook stores the purchase paid,
    settles nothing and is answered with failure.
   */
  function HandlePaymentWebhook(db: Db, gateway: string, data: JsValue, now: int): (r: (Db, WebhookReply))
    ensures WebhookTarget(db, gateway, data).None? ==> r == (db, WebhookReply(false, None))
    ensures WebhookTarget(db, gateway, data).Some? ==>
      var (pid, newStatus) := WebhookTarget(db, gateway, data).value;
      && pid in db.purchases
      && var change := ApplyGatewayStatus(db, pid, newStatus, now);
         r == (change.db, WebhookReply(!change.failed, if change.failed then None else Some(newStatus)))
    ensures WebhookTarget(db, gateway, data).Some? ==>
      var (pid, newStatus) := WebhookTarget(db, gateway, data).value;
      (r.1.success <==> newStatus != Paid || db.purchases[pid].status == Paid)
  {
    WebhookWith(GetClient, db, gateway, data, now)
  }

  /** `handlePaymentWebhook` with the corrected settlement: only a settlement without split configuration fails. */
  function HandlePaymentWebhookFixed(db: Db, gateway: string, data: JsValue, now: int): (r: (Db, WebhookReply))
    ensures WebhookTarget(db, gateway, data).None? ==> r == (db, WebhookReply(false, None))
    ensures WebhookTarget(db, gateway, data).Some? ==>
      var (pid, newStatus) := WebhookTarget(db, gateway, data).value;
      && pid in db.purchases
      && var change := ApplyGatewayStatusFixed(db, pid, newStatus, now);
         r == (change.db, WebhookReply(!change.failed, if change.failed then None else Some(newStatus)))
  {
    WebhookWith(Connect, db, gateway, data, now)
  }

  /**
    A webhook delivered twice settles at most once: the second delivery finds the
    status already set, as written and as corrected.
   */
  lemma WebhookRedeliveryIsHarmless(db: Db, gateway: string, data: JsValue, now: int, later: int)
    ensures var db1 := HandlePaymentWebhook(db, gateway, data, now).0;
      HandlePaymentWebhook(db1, gateway, data, later).0 == db1
    ensures var db1 := HandlePaymentWebhookFixed(db, gateway, data, now).0;
      HandlePaymentWebhookFixed(db1, gateway, data, later).0 == db1
  {
    RedeliveryWith(GetClient, db, gateway, data, now, later);
    RedeliveryWith(Connect, db, gateway, data, now, later);
  }

  /** The second delivery of a webhook changes nothing, whichever settlement runs. */
  lemma RedeliveryWith(client: Client, db: Db, gateway: string, data: JsValue, now: int, later: int)
    ensures var db1 := WebhookWith(client, db, gateway, data, now).0;
      WebhookWith(client, db1, gateway, data, later).0 == db1
  {
    var target := WebhookTarget(db, gateway, data);
    if target.Some? {
      var (pid, newStatus) := target.value;
      var db1 := ApplyWith(client, db, pid, newStatus, now).db;
      assert WebhookWith(client, db, gateway, data, now).0 == db1;
      ApplyKeepsTransactions(client, db, pid, newStatus, now);
      WebhookTargetStable(db, db1, gateway, data);
      ApplyWithIsIdempotent(client, db, pid, newStatus, now, later);
    }
  }

  /** A status update, with or without settlement, keeps every purchase's gateway and transaction id. */
  lemma ApplyKeepsTransactions(client: Client, db: Db, pid: nat, newStatus: PaymentStatus, now: int)
    requires pid in db.purchases
    ensures var db1 := ApplyWith(client, db, pid, newStatus, now).db;
      && db1.purchases.Keys == db.purchases.Keys
      && forall q :: q in db.purchases ==>
           db1.purchases[q].gatewayTxId == db.purchases[q].gatewayTxId && db1.purchases[q].gateway == db.purchases[q].gateway
  {
  }

  /** Which purchase a webhook targets depends only on the purchases' gateways and transaction ids. */
  lemma WebhookTargetStable(db: Db, db1: Db, gateway: string, data: JsValue)
    requires db1.purchases.Keys == db.purchases.Keys
    requires forall q :: q in db.purchases ==>
      db1.purchases[q].gatewayTxId == db.purchases[q].gatewayTxId && db1.purchases[q].gateway == db.purchases[q].gateway
    ensures WebhookTarget(db1, gateway, data) == WebhookTarget(db, gateway, data)
  {
    if KnownGateway(gateway) && ParseEvent(gateway, data).Ok? && TxKey(ParseEvent(gateway, data).value.txId).Some? {
      SameMatches(db, db1, TxKey(ParseEvent(gateway, data).value.txId).value, gateway);
    }
  }

  /** Status updates and settlement do not change which purchases match a transaction. */
  lemma SameMatches(db: Db, db1: Db, tx: string, gateway: string)
    requires db1.purchases.Keys == db.purchases.Keys
    requires forall q :: q in db.purchases ==>
      db1.purchases[q].gatewayTxId == db.purchases[q].gatewayTxId && db1.purchases[q].gateway == db.purchases[q].gateway
    ensures FindByGatewayTx(db1, tx, gateway) == FindByGatewayTx(db, tx, gateway)
  {
    var ids := set q | q in db.purchases && MatchesTx(db.purchases[q], tx, gateway) :: q as int;
    var ids1 := set q | q in db1.purchases && MatchesTx(db1.purchases[q], tx, gateway) :: q as int;
    assert ids == ids1;
  }

  // ---------------------------------------------------------------- refunds

  /**
    `refundPayment`: only a paid purchase can be refunded; after the gateway call it
    is marked refunded with the reason and time, and its cards return to the pool
    with no purchase and no owner. A failing gateway call changes nothing; an unknown
    gateway is not called at all.
   */
  function RefundPayment(db: Db, pid: nat, reason: string, gatewayRefund: Result<JsValue>, now: int): (r: Result<Db>)
    ensures r.Ok? <==> pid in db.purchases && db.purchases[pid].status == Paid
                       && !(KnownGateway(db.purchases[pid].gateway.GetOr("")) && gatewayRefund.Err?)
    ensures r.Ok? ==>
      && r.value == db.(purchases := r.value.purchases, cards := r.value.cards)
      && r.value.purchases == db.purchases[pid := db.purchases[pid].(status := Refunded, refundedAt := Some(now), refundReason := Some(reason))]
      && r.value.cards.Keys == db.cards.Keys
      && (forall c :: c in db.cards ==>
            r.value.cards[c] == if db.cards[c].purchaseId == Some(pid)
              then db.cards[c].(status := Available, purchaseId := None, userId := None) else db.cards[c])
  {
    if pid !in db.purchases then Err("Compra não encontrada")
    else if db.purchases[pid].status != Paid then Err("Apenas compras pagas podem ser reembolsadas")
    else if KnownGateway(db.purchases[pid].gateway.GetOr("")) && gatewayRefund.Err? then Err(gatewayRefund.error)
    else
      var p := db.purchases[pid];
      var cards := map c | c in db.cards ::
        if db.cards[c].purchaseId == Some(pid) then db.cards[c].(status := Available, purchaseId := None, userId := None) else db.cards[c];
      Ok(db.(purchases := db.purchases[pid := p.(status := Refunded, refundedAt := Some(now), refundReason := Some(reason))], cards := cards))
  }

  /** After a refund no card belongs to the purchase, and a second refund is rejected. */
  lemma RefundReleasesCards(db: Db, pid: nat, reason: string, gatewayRefund: Result<JsValue>, now: int, again: Result<JsValue>, later: int)
    requires RefundPayment(db, pid, reason, gatewayRefund, now).Ok?
    ensures var db' := RefundPayment(db, pid, reason, gatewayRefund, now).value;
      && CardsOfPurchase(db', pid) == {}
      && (forall c :: c in CardsOfPurchase(db, pid) ==> db'.cards[c].status == Available && db'.cards[c].userId == None)
      && RefundPayment(db', pid, reason, again, later).Err?
  {
  }

  // ---------------------------------------------------------------- creating charges

  /** The customer fields sent to a gateway; empty fields fall back to defaults. */
  datatype CustomerData = CustomerData(cpfCnpj: Option<string>, name: string, email: string, phone: Option<string>)

  /** `a?.f`, when it is a non-empty string. */
  function Field(obj: JsValue, key: string): (r: Option<string>)
    ensures r.Some? ==> r.value != "" && Get(obj, key) == JStr(r.value)
    ensures r.None? ==> !(Get(obj, key).JStr? && Get(obj, key).s != "")
  {
    var v := Get(obj, key);
    if v.JStr? && v.s != "" then Some(v.s) else None
  }

  function DefaultEmail(purchaseId: nat): string {
    "cliente-" + Text.NatToString(purchaseId) + "@sortebem.com.br"
  }

  /**
    The customer for a charge: the request's fields, then the card holder's for name
    and tax id, then the defaults. The name and e-mail are never empty.
   */
  function Customer(customer: JsValue, holder: JsValue, purchaseId: nat): (c: CustomerData)
    ensures c.name != "" && c.email != ""
    ensures Field(customer, "name").Some? ==> c.name == Field(customer, "name").value
    ensures Field(customer, "name").None? && Field(holder, "name").None? ==> c.name == "Cliente SORTEBEM"
    ensures Field(customer, "name").None? && Field(holder, "name").Some? ==> c.name == Field(holder, "name").value
    ensures Field(customer, "email").Some? ==> c.email == Field(customer, "email").value
    ensures Field(customer, "email").None? ==> c.email == DefaultEmail(purchaseId)
    ensures c.cpfCnpj == if Field(customer, "cpf").Some? then Field(customer, "cpf") else Field(holder, "cpf")
    ensures c.cpfCnpj.None? <==> Field(customer, "cpf").None? && Field(holder, "cpf").None?
    ensures c.phone == Field(customer, "phone")
  {
    CustomerData(
      if Field(customer, "cpf").Some? then Field(customer, "cpf") else Field(holder, "cpf"),
      Field(customer, "name").GetOr(Field(holder, "name").GetOr("Cliente SORTEBEM")),
      Field(customer, "email").GetOr(DefaultEmail(purchaseId)),
      Field(customer, "phone"))
  }

  /** Different purchases get different default addresses. */
  lemma DefaultEmailInjective(a: nat, b: nat)
    requires DefaultEmail(a) == DefaultEmail(b)
    ensures a == b
  {
    var sa := Text.NatToString(a);
    var sb := Text.NatToString(b);
    var e := DefaultEmail(a);
    assert |sa| == |sb| by {
      assert |e| == 8 + |sa| + 16 == 8 + |sb| + 16;
    }
    forall k | 0 <= k < |sa|
      ensures sa[k] == sb[k]
    {
      assert e[8 + k] == sa[k];
      assert DefaultEmail(b)[8 + k] == sb[k];
    }
    Text.NatToStringInjective(a, b);
  }

  /** What a gateway returns for a new charge. */
  datatype Charge = Charge(id: string, status: string, expiresAt: string)

  /** The catch block of both charge functions: the purchase is marked failed. */
  function MarkFailed(db: Db, pid: nat): (db': Db)
    requires pid in db.purchases
    ensures db'.purchases.Keys == db.purchases.Keys && db'.purchases[pid].status == Failed
    ensures forall q :: q in db.purchases && q != pid ==> db'.purchases[q] == db.purchases[q]
    ensures db' == db.(purchases := db'.purchases)
  {
    db.(purchases := db.purchases[pid := db.purchases[pid].(status := Failed)])
  }

  /** The purchase row once a PIX charge is stored: code, gateway, gateway id and `expires_at`. */
  function RecordPixCharge(p: Purchase, transactionCode: string, gateway: string, charge: Charge): (p': Purchase)
    ensures p'.transactionCode == Some(transactionCode) && p'.gateway == Some(gateway)
    ensures p'.gatewayTxId == Some(charge.id) && p'.gatewayExpiresAt == Some(charge.expiresAt)
    ensures p' == p.(transactionCode := p'.transactionCode, gateway := p'.gateway, gatewayTxId := p'.gatewayTxId,
                     gatewayExpiresAt := p'.gatewayExpiresAt)
  {
    p.(transactionCode := Some(transactionCode), gateway := Some(gateway),
       gatewayTxId := Some(charge.id), gatewayExpiresAt := Some(charge.expiresAt))
  }

  /**
    What creating a charge leaves behind: the state, whether the charge function
    returns, and when it throws, the message of the error it throws (empty otherwise).
   */
  datatype ChargeOutcome = ChargeOutcome(db: Db, ok: bool, error: string)

  /**
    `createPixPayment`: the gateway is selected before anything else, so a missing
    configuration fails with no change. A charge failure, or an active gateway the
    service has no client for, marks the purchase failed and rethrows: the gateway's
    error, or for an unknown gateway the read of `id` on the charge that was never
    made. Otherwise the purchase records the charge and stays as it was, pending.
   */
  function CreatePixPayment(db: Db, pid: nat, transactionCode: string, charge: Result<Charge>): (r: ChargeOutcome)
    requires pid in db.purchases
    ensures SelectGateway(db.settings, "pix").Err? ==> r == ChargeOutcome(db, false, NoGatewayConfig)
    ensures SelectGateway(db.settings, "pix").Ok? ==>
      var gateway := SelectGateway(db.settings, "pix").value;
      && (r.ok <==> KnownGateway(gateway) && charge.Ok?)
      && (r.ok ==> r.db == db.(purchases := db.purchases[pid := RecordPixCharge(db.purchases[pid], transactionCode, gateway, charge.value)]))
      && (!r.ok ==> r.db == MarkFailed(db, pid))
  {
    match SelectGateway(db.settings, "pix")
    case Err(e) => ChargeOutcome(db, false, e)
    case Ok(gateway) =>
      if !KnownGateway(gateway) then ChargeOutcome(MarkFailed(db, pid), false, UndefinedRead("id"))
      else if charge.Err? then ChargeOutcome(MarkFailed(db, pid), false, charge.error)
      else ChargeOutcome(db.(purchases := db.purchases[pid := RecordPixCharge(db.purchases[pid], transactionCode, gateway, charge.value)]), true, "")
  }

  /**
    The error a failed PIX charge rethrows: for a gateway the service has no client for,
    the read of `id` on the charge that was never made; otherwise the gateway's own error.
   */
  lemma PixChargeError(db: Db, pid: nat, transactionCode: string, charge: Result<Charge>)
    requires pid in db.purchases
    ensures SelectGateway(db.settings, "pix").Ok? ==>
      var gateway := SelectGateway(db.settings, "pix").value;
      var r := CreatePixPayment(db, pid, transactionCode, charge);
      && (!KnownGateway(gateway) ==> r.error == UndefinedRead("id"))
      && (KnownGateway(gateway) && charge.Err? ==> r.error == charge.error)
  {
  }

  /**
    The `value` of the PIX charge request: the purchase total in reais for Asaas and
    in centavos for PagSeguro (rounding to whole centavos is not modelled). The
    gateway has no client for any other name.
   */
  function PixChargeValue(gateway: string, total: real): (v: real)
    requires KnownGateway(gateway)
    ensures gateway == "asaas" ==> v == total
    ensures gateway == "pagseguro" ==> v == total * 100.0
  {
    if gateway == "pagseguro" then total * 100.0 else total
  }

  /** The amount charged for PIX is the amount owed plus the PIX fee, in the gateway's unit: no fee is added on top. */
  lemma PixChargeIncludesFee(gateway: string, total: real)
    requires KnownGateway(gateway)
    ensures PixChargeValue(gateway, total) == (total + PixService.CalculatePixFee(total)) * (if gateway == "pagseguro" then 100.0 else 1.0)
  {
  }

  /**
    A PIX charge writes `expires_at`, not the `pix_expiration` column the expiry
    sweep reads: a purchase without `pix_expiration` still has none afterwards, and
    its status is never set to paid here.
   */
  lemma PixChargeLeavesPixExpiration(db: Db, pid: nat, transactionCode: string, charge: Result<Charge>)
    requires pid in db.purchases
    ensures var db' := CreatePixPayment(db, pid, transactionCode, charge).db;
      && pid in db'.purchases
      && db'.purchases[pid].pixExpiration == db.purchases[pid].pixExpiration
      && (db'.purchases[pid].status == db.purchases[pid].status || db'.purchases[pid].status == Failed)
  {
  }

  /** A card charge is approved when PagSeguro reports it AUTHORIZED or PAID. */
  predicate Approved(status: string) {
    status == "AUTHORIZED" || status == "PAID"
  }

  /** The purchase row once a card charge is stored: paid when approved, pending otherwise. */
  function RecordCardCharge(p: Purchase, transactionCode: string, charge: Charge): (p': Purchase)
    ensures p'.status == (if Approved(charge.status) then Paid else Pending)
    ensures p'.transactionCode == Some(transactionCode) && p'.gateway == Some("pagseguro") && p'.gatewayTxId == Some(charge.id)
    ensures p' == p.(transactionCode := p'.transactionCode, gateway := p'.gateway, gatewayTxId := p'.gatewayTxId, status := p'.status)
  {
    p.(transactionCode := Some(transactionCode), gateway := Some("pagseguro"), gatewayTxId := Some(charge.id),
       status := if Approved(charge.status) then Paid else Pending)
  }

  /**
    A card charge followed, when approved, by the settlement as written or as
    corrected. Either way no purchase or card row is added or removed.
   */
  function CardChargeWith(client: Client, db: Db, pid: nat, transactionCode: string, charge: Result<Charge>): (r: ChargeOutcome)
    requires pid in db.purchases
    ensures r.db.purchases.Keys == db.purchases.Keys && r.db.cards.Keys == db.cards.Keys
  {
    if charge.Err? then ChargeOutcome(MarkFailed(db, pid), false, charge.error)
    else
      var db1 := db.(purchases := db.purchases[pid := RecordCardCharge(db.purchases[pid], transactionCode, charge.value)]);
      if !Approved(charge.value.status) then ChargeOutcome(db1, true, "")
      else
        match Process(client, db1, pid)
        case Ok(db2) => ChargeOutcome(db2, true, "")
        case Err(e) => ChargeOutcome(MarkFailed(db1, pid), false, e)
  }

  /**
    `createCreditCardPayment`: the purchase records the charge and is stored paid iff
    the charge is approved, and only then settled. A charge failure, or a failing
    settlement inside the same `try`, marks the purchase failed and rethrows its
    error; the charge fields written before a failing settlement stay. As written the
    settlement always fails, so an approved charge ends failed.
   */
  function CreateCreditCardPayment(db: Db, pid: nat, transactionCode: string, charge: Result<Charge>): (r: ChargeOutcome)
    requires pid in db.purchases
    ensures charge.Err? ==> r == ChargeOutcome(MarkFailed(db, pid), false, charge.error)
    ensures charge.Ok? ==>
      var db1 := db.(purchases := db.purchases[pid := RecordCardCharge(db.purchases[pid], transactionCode, charge.value)]);
      && (!Approved(charge.value.status) ==> r == ChargeOutcome(db1, true, ""))
      && (Approved(charge.value.status) ==> r == ChargeOutcome(MarkFailed(db1, pid), false, NoGetClient))
  {
    CardChargeWith(GetClient, db, pid, transactionCode, charge)
  }

  /** `createCreditCardPayment` with the corrected settlement: an approved charge is settled when the split configuration is present. */
  function CreateCreditCardPaymentFixed(db: Db, pid: nat, transactionCode: string, charge: Result<Charge>): (r: ChargeOutcome)
    requires pid in db.purchases
    ensures charge.Err? ==> r == ChargeOutcome(MarkFailed(db, pid), false, charge.error)
    ensures charge.Ok? ==>
      var db1 := db.(purchases := db.purchases[pid := RecordCardCharge(db.purchases[pid], transactionCode, charge.value)]);
      && (!Approved(charge.value.status) ==> r == ChargeOutcome(db1, true, ""))
      && (Approved(charge.value.status) && db.settings.split.Some? ==> r == ChargeOutcome(Settle(db1, pid), true, ""))
      && (Approved(charge.value.status) && db.settings.split.None? ==>
            r == ChargeOutcome(MarkFailed(db1, pid), false, UndefinedRead("value")))
  {
    CardChargeWith(Connect, db, pid, transactionCode, charge)
  }

  /**
    As written, an approved card charge ends with the purchase failed and the
    `getClient` error rethrown; no round or card changes.
   */
  lemma ApprovedCardChargeFails(db: Db, pid: nat, transactionCode: string, charge: Result<Charge>)
    requires pid in db.purchases && charge.Ok? && Approved(charge.value.status)
    ensures var o := CreateCreditCardPayment(db, pid, transactionCode, charge);
      && !o.ok && o.error == NoGetClient
      && pid in o.db.purchases && o.db.purchases[pid].status == Failed
      && o.db.rounds == db.rounds && o.db.cards == db.cards
  {
  }

  /** A card payment reported as successful leaves the purchase paid exactly when the charge was approved. */
  lemma CardPaymentPaidIffApproved(db: Db, pid: nat, transactionCode: string, charge: Result<Charge>)
    requires pid in db.purchases && charge.Ok?
    requires CreateCreditCardPaymentFixed(db, pid, transactionCode, charge).ok
    ensures var db' := CreateCreditCardPaymentFixed(db, pid, transactionCode, charge).db;
      pid in db'.purchases && (db'.purchases[pid].status == Paid <==> Approved(charge.value.status))
  {
    var db1 := db.(purchases := db.purchases[pid := RecordCardCharge(db.purchases[pid], transactionCode, charge.value)]);
    assert db1.purchases[pid].status == Paid <==> Approved(charge.value.status);
    if Approved(charge.value.status) {
      assert Settle(db1, pid).purchases == db1.purchases;
    }
  }
}
