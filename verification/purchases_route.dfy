/**
  `routes/purchases.js`: buying cards online. A purchase is admitted inside one
  transaction (round on sale, enough cards left, customer found or created, purchase
  row, cards, counter) and committed before the payment is attempted, so a failing
  payment leaves the purchase and its cards in place.
 */
module PurchasesRoute {
  import opened Wrappers
  import opened Store
  import opened Json
  import Keys
  import Text
  import CardGenerator
  import PaymentService

  /** The `customer` object of the request body. */
  datatype CustomerInput = CustomerInput(name: Option<string>, email: Option<string>, phone: Option<string>, cpf: Option<string>)

  /** The request body; a card token and holder matter only to card payments. */
  datatype PurchaseRequest = PurchaseRequest(
    roundId: Option<nat>,
    quantity: Option<int>,
    payMethod: Option<string>,
    customer: Option<CustomerInput>,
    cardToken: Option<string>,
    cardHolder: JsValue)

  datatype Reply =
    | Created(purchaseId: nat, cards: seq<nat>)
    | BadRequest(message: string)
    | Forbidden(message: string)
    | NotFound(message: string)
    | ServerError(message: string)

  predicate TruthyString(s: Option<string>) {
    s.Some? && s.value != ""
  }

  /** `!round_id || !quantity || !payment_method || !customer` fails: a 0 counts as missing. */
  predicate Complete(req: PurchaseRequest) {
    PresentId(req.roundId) && TruthyInt(req.quantity) && TruthyString(req.payMethod) && req.customer.Some?
  }

  /** `status = 'selling' AND is_selling = true`. */
  predicate OnSale(db: Db, id: nat) {
    id in db.rounds && db.rounds[id].status == Selling && db.rounds[id].isSelling
  }

  /** The cards still on sale: `max_cards - cards_sold`. */
  function Available(r: Round): int {
    r.maxCards - r.cardsSold
  }

  // ---------------------------------------------------------------- the customer

  /** The user the e-mail lookup returns: among those with the address, the lowest id stands for the first row. */
  function UserByEmail(db: Db, email: string): (r: Option<nat>)
    ensures r.Some? ==> r.value in db.users && db.users[r.value].email == Some(email)
    ensures r.Some? ==> forall u :: u in db.users && db.users[u].email == Some(email) ==> r.value <= u
    ensures r.None? <==> forall u :: u in db.users ==> db.users[u].email != Some(email)
  {
    var ids := set u | u in db.users && db.users[u].email == Some(email) :: u as int;
    if ids == {} then
      assert forall u :: u in db.users && db.users[u].email == Some(email) ==> (u as int) in ids;
      None
    else
      var m := Keys.SetMin(ids);
      assert m in ids;
      var u :| u in db.users && db.users[u].email == Some(email) && u as int == m;
      assert forall u' :: u' in db.users && db.users[u'].email == Some(email) ==> (u' as int) in ids;
      Some(u)
  }

  /**
    A customer with an e-mail is the user with that address, created from the
    customer's fields when there is none; a customer without one stays anonymous.
   */
  function FindOrCreateUser(db: Db, c: CustomerInput): (r: (Db, Option<nat>))
    ensures !TruthyString(c.email) ==> r == (db, None)
    ensures TruthyString(c.email) ==>
      var (db', id) := r;
      && id.Some? && id.value in db'.users && db'.users[id.value].email == c.email
      && db' == db.(users := db'.users)
      && (UserByEmail(db, c.email.value).Some? ==> db' == db && id == UserByEmail(db, c.email.value))
      && (UserByEmail(db, c.email.value).None? ==>
            id.value !in db.users && db'.users == db.users[id.value := User(c.name, c.email, c.phone, c.cpf)])
  {
    if !TruthyString(c.email) then (db, None)
    else match UserByEmail(db, c.email.value)
      case Some(u) => (db, Some(u))
      case None =>
        var u := Keys.FreshKey(db.users.Keys);
        (db.(users := db.users[u := User(c.name, c.email, c.phone, c.cpf)]), Some(u))
  }

  // ---------------------------------------------------------------- admission

  /** The state after the purchase row is inserted, before any card exists. */
  datatype Reservation = Reservation(db: Db, purchaseId: nat, userId: Option<nat>)

  /** The purchase row the route inserts: pending, priced at the round's card price. */
  function NewPurchase(roundId: nat, userId: Option<nat>, quantity: int, price: Option<real>, payMethod: string): Purchase {
    Purchase(roundId, userId, None, None, quantity, price, Price(price) * quantity as real, payMethod, Pending,
             None, None, None, None, None, None, None, None, None)
  }

  /**
    Everything up to the purchase row: the request check, the round check and the
    capacity check, each of which ends the request with no change.
   */
  function Reserve(db: Db, req: PurchaseRequest): (r: Result<Reservation>)
    ensures r.Ok? <==>
      (Complete(req) && OnSale(db, req.roundId.value) && req.quantity.value <= Available(db.rounds[req.roundId.value]))
    ensures r.Ok? ==>
      var (db1, pid) := (r.value.db, r.value.purchaseId);
      && pid !in db.purchases && pid in db1.purchases
      && db1.purchases == db.purchases[pid := db1.purchases[pid]]
      && db1.rounds == db.rounds && db1.cards == db.cards
      && db1 == db.(users := db1.users, purchases := db1.purchases)
      && db1.purchases[pid].roundId == req.roundId.value
      && db1.purchases[pid].userId == r.value.userId
      && db1.purchases[pid].quantity == req.quantity.value
      && db1.purchases[pid].status == Pending
      && db1.purchases[pid].totalAmount == Price(db.rounds[req.roundId.value].cardPrice) * req.quantity.value as real
  {
    if !Complete(req) then Err("Dados incompletos")
    else if !OnSale(db, req.roundId.value) then Err("Rodada não disponível para venda")
    else
      var round := db.rounds[req.roundId.value];
      var quantity := req.quantity.value;
      if quantity > Available(round) then Err("Apenas " + Text.IntToString(Available(round)) + " cartela(s) disponível(is)")
      else
        var (db1, userId) := FindOrCreateUser(db, req.customer.value);
        var pid := Keys.FreshKey(db1.purchases.Keys);
        var p := NewPurchase(req.roundId.value, userId, quantity, round.cardPrice, req.payMethod.value);
        Ok(Reservation(db1.(purchases := db1.purchases[pid := p]), pid, userId))
  }

  /** The admitted purchase: the committed state and the generated cards' ids. */
  datatype Admission = Admission(db: Db, purchaseId: nat, cards: seq<nat>)

  /** The last step of the transaction: `cards_sold` grows by the requested quantity. */
  function CountSold(db: Db, roundId: nat, quantity: int): Db
    requires roundId in db.rounds
  {
    db.(rounds := db.rounds[roundId := db.rounds[roundId].(cardsSold := db.rounds[roundId].cardsSold + quantity)])
  }

  /**
    The transaction after the reservation, given how many cards are generated. A card
    whose code attempts all collide (the source retries for ever) fails the request.
   */
  function Finish(req: PurchaseRequest, res: Reservation, cardCount: int, draws: seq<CardGenerator.CardDraw>): (r: Result<Admission>)
    requires Complete(req) && req.roundId.value in res.db.rounds
  {
    match CardGenerator.GenerateCards(res.db, req.roundId.value, Some(res.purchaseId), cardCount, draws)
    case None => Err("Erro ao criar compra")
    case Some((db2, ids)) => Ok(Admission(CountSold(db2, req.roundId.value, req.quantity.value), res.purchaseId, ids))
  }

  /** The `quantity` argument `generateCards` actually receives: the user id, a NULL one counting as 0. */
  function CardsRequestedAsWritten(userId: Option<nat>): int {
    if userId.Some? then userId.value else 0
  }

  /** The transaction as written: `generateCards(round_id, purchase.id, userId, quantity)`. */
  function AdmitAsWritten(db: Db, req: PurchaseRequest, draws: seq<CardGenerator.CardDraw>): (r: Result<Admission>)
    ensures Reserve(db, req).Err? ==> r.Err?
    ensures r.Ok? ==>
      var pid := r.value.purchaseId;
      && Reserve(db, req).Ok? && pid == Reserve(db, req).value.purchaseId
      && |r.value.cards| == CardsRequestedAsWritten(Reserve(db, req).value.userId)
      && pid in r.value.db.purchases && r.value.db.purchases[pid] == Reserve(db, req).value.db.purchases[pid]
      && req.roundId.value in r.value.db.rounds
      && r.value.db.rounds[req.roundId.value].cardsSold == db.rounds[req.roundId.value].cardsSold + req.quantity.value
  {
    match Reserve(db, req)
    case Err(e) => Err(e)
    case Ok(res) => Finish(req, res, CardsRequestedAsWritten(res.userId), draws)
  }

  /** The transaction as intended: one card per unit of `quantity`. */
  function Admit(db: Db, req: PurchaseRequest, draws: seq<CardGenerator.CardDraw>): (r: Result<Admission>)
    ensures Reserve(db, req).Err? ==> r.Err?
    ensures r.Ok? ==>
      var pid := r.value.purchaseId;
      && Reserve(db, req).Ok? && pid == Reserve(db, req).value.purchaseId
      && |r.value.cards| == (if req.quantity.value > 0 then req.quantity.value else 0)
      && pid in r.value.db.purchases && r.value.db.purchases[pid] == Reserve(db, req).value.db.purchases[pid]
      && req.roundId.value in r.value.db.rounds
      && r.value.db.rounds[req.roundId.value].cardsSold == db.rounds[req.roundId.value].cardsSold + req.quantity.value
  {
    match Reserve(db, req)
    case Err(e) => Err(e)
    case Ok(res) => Finish(req, res, req.quantity.value, draws)
  }

  /** Every stored card belongs to a stored purchase, if to any. */
  predicate CardsOwned(db: Db) {
    forall c :: c in db.cards && db.cards[c].purchaseId.Some? ==> db.cards[c].purchaseId.value in db.purchases
  }

  /** An admitted purchase owns exactly the cards generated for it, as many as it paid for. */
  lemma AdmitGeneratesQuantityCards(db: Db, req: PurchaseRequest, draws: seq<CardGenerator.CardDraw>)
    requires CardsOwned(db) && Admit(db, req, draws).Ok?
    ensures var a := Admit(db, req, draws).value;
      && (req.quantity.value > 0 ==> |a.cards| == req.quantity.value)
      && CardsOfPurchase(a.db, a.purchaseId) == set i | i in a.cards
  {
    var res := Reserve(db, req).value;
    var a := Admit(db, req, draws).value;
    var (db2, ids) := CardGenerator.GenerateCards(res.db, req.roundId.value, Some(res.purchaseId), req.quantity.value, draws).value;
    forall c | c in a.db.cards
      ensures c in CardsOfPurchase(a.db, a.purchaseId) <==> c in ids
    {
      if c in db.cards {
        assert res.db.cards[c] == db.cards[c];
        if c !in ids {
          assert a.db.cards[c] == db.cards[c];
        }
      }
    }
  }

  /**
    As written, the number of cards follows the customer's user id: a customer
    without e-mail receives no card at all, whatever the quantity paid for.
   */
  lemma AsWrittenAnonymousGetsNoCards(db: Db, req: PurchaseRequest, draws: seq<CardGenerator.CardDraw>)
    requires Reserve(db, req).Ok? && !TruthyString(req.customer.value.email)
    ensures AdmitAsWritten(db, req, draws).Ok?
    ensures AdmitAsWritten(db, req, draws).value.cards == [] && req.quantity.value != 0
  {
  }

  /** The capacity check keeps `cards_sold` within `max_cards`. */
  lemma AdmitKeepsCapacity(db: Db, req: PurchaseRequest, draws: seq<CardGenerator.CardDraw>)
    requires AdmitAsWritten(db, req, draws).Ok?
    ensures req.roundId.value in AdmitAsWritten(db, req, draws).value.db.rounds
    ensures AdmitAsWritten(db, req, draws).value.db.rounds[req.roundId.value].cardsSold <= db.rounds[req.roundId.value].maxCards
  {
  }

  /** A negative quantity passes every check, is priced negative and lowers `cards_sold`. */
  lemma NegativeQuantityAdmitted(db: Db, req: PurchaseRequest)
    requires Complete(req) && OnSale(db, req.roundId.value) && req.quantity.value < 0
    requires db.rounds[req.roundId.value].cardsSold <= db.rounds[req.roundId.value].maxCards
    ensures Reserve(db, req).Ok?
  {
  }

  // ---------------------------------------------------------------- payment

  /**
    The reply to a charge attempt: created when the payment service returns, and a 500
    carrying the thrown error's message when it throws.
   */
  function ChargeReply(ok: bool, error: string, pid: nat, cards: seq<nat>): (r: Reply)
    ensures r.Created? <==> ok
    ensures !ok ==> r == ServerError("Erro ao processar pagamento: " + error)
  {
    if ok then Created(pid, cards) else ServerError("Erro ao processar pagamento: " + error)
  }

  /** A PIX charge attempt keeps every purchase and card row it found. */
  lemma PixChargeKeepsRows(db: Db, pid: nat, transactionCode: string, charge: Result<PaymentService.Charge>)
    requires pid in db.purchases
    ensures var o := PaymentService.CreatePixPayment(db, pid, transactionCode, charge);
      o.db.purchases.Keys == db.purchases.Keys && o.db.cards.Keys == db.cards.Keys
  {
  }

  /**
    The payment step, after the commit: PIX and card charges go to the payment
    service, whose settlement is the one `client` selects; a card request without
    token or holder, and an unknown method, are rejected with the purchase left pending.
   */
  function Pay(client: PaymentService.Client, db: Db, pid: nat, cards: seq<nat>, req: PurchaseRequest, transactionCode: string,
               charge: Result<PaymentService.Charge>): (r: (Db, Reply))
    requires pid in db.purchases && TruthyString(req.payMethod)
    ensures req.payMethod.value != "pix" && req.payMethod.value != "credit_card" ==>
      r == (db, BadRequest("Método de pagamento inválido"))
    ensures req.payMethod.value == "credit_card" && (!TruthyString(req.cardToken) || !Truthy(req.cardHolder)) ==>
      r == (db, BadRequest("Dados do cartão incompletos"))
    ensures r.1.Created? ==> r.1 == Created(pid, cards)
    ensures req.payMethod.value == "pix" && db.settings.gatewayConfig.None? ==>
      r == (db, ServerError("Erro ao processar pagamento: " + PaymentService.NoGatewayConfig))
    ensures req.payMethod.value == "pix" && charge.Err? && PaymentService.SelectGateway(db.settings, "pix").Ok?
            && PaymentService.KnownGateway(PaymentService.SelectGateway(db.settings, "pix").value) ==>
      r == (PaymentService.MarkFailed(db, pid), ServerError("Erro ao processar pagamento: " + charge.error))
    ensures req.payMethod.value == "credit_card" && TruthyString(req.cardToken) && Truthy(req.cardHolder) && charge.Err? ==>
      r == (PaymentService.MarkFailed(db, pid), ServerError("Erro ao processar pagamento: " + charge.error))
    ensures r.0.purchases.Keys == db.purchases.Keys && r.0.cards.Keys == db.cards.Keys
  {
    PixChargeKeepsRows(db, pid, transactionCode, charge);
    var method_ := req.payMethod.value;
    if method_ == "pix" then
      PaymentService.PixChargeError(db, pid, transactionCode, charge);
      var o := PaymentService.CreatePixPayment(db, pid, transactionCode, charge);
      (o.db, ChargeReply(o.ok, o.error, pid, cards))
    else if method_ == "credit_card" then
      if !TruthyString(req.cardToken) || !Truthy(req.cardHolder) then (db, BadRequest("Dados do cartão incompletos"))
      else
        var o := PaymentService.CardChargeWith(client, db, pid, transactionCode, charge);
        (o.db, ChargeReply(o.ok, o.error, pid, cards))
    else (db, BadRequest("Método de pagamento inválido"))
  }

  /**
    As written, a card purchase whose charge is approved is answered with a 500 that
    carries the `getClient` error, and the purchase is left failed.
   */
  lemma ApprovedCardPurchaseAnswersServerError(db: Db, pid: nat, cards: seq<nat>, req: PurchaseRequest, transactionCode: string,
                                               charge: Result<PaymentService.Charge>)
    requires pid in db.purchases && TruthyString(req.payMethod) && req.payMethod.value == "credit_card"
    requires TruthyString(req.cardToken) && Truthy(req.cardHolder)
    requires charge.Ok? && PaymentService.Approved(charge.value.status)
    ensures var r := Pay(PaymentService.GetClient, db, pid, cards, req, transactionCode, charge);
      && r.1 == ServerError("Erro ao processar pagamento: " + PaymentService.NoGetClient)
      && r.0.purchases[pid].status == Failed
  {
    PaymentService.ApprovedCardChargeFails(db, pid, transactionCode, charge);
  }

  /** The reply to an admission: a failed one ends the request with no change, an admitted one goes to payment. */
  function Respond(client: PaymentService.Client, db: Db, admission: Result<Admission>, req: PurchaseRequest, transactionCode: string,
                   charge: Result<PaymentService.Charge>): (r: (Db, Reply))
    requires admission.Ok? ==> admission.value.purchaseId in admission.value.db.purchases && TruthyString(req.payMethod)
    ensures admission.Err? ==> r.0 == db && (r.1.BadRequest? || r.1.ServerError?)
    ensures admission.Ok? ==> r.0.purchases.Keys == admission.value.db.purchases.Keys && r.0.cards.Keys == admission.value.db.cards.Keys
  {
    match admission
    case Err(e) => (db, if e == "Erro ao criar compra" then ServerError(e) else BadRequest(e))
    case Ok(a) => Pay(client, a.db, a.purchaseId, a.cards, req, transactionCode, charge)
  }

  /** `POST /purchases` as written: the cards generated follow the customer's user id, and the settlement is the one that always fails. */
  function CreatePurchase(db: Db, req: PurchaseRequest, draws: seq<CardGenerator.CardDraw>, transactionCode: string,
                          charge: Result<PaymentService.Charge>): (r: (Db, Reply))
    ensures AdmitAsWritten(db, req, draws).Err? ==> r.0 == db && (r.1.BadRequest? || r.1.ServerError?)
    ensures !Complete(req) ==> r == (db, BadRequest("Dados incompletos"))
    ensures Complete(req) && OnSale(db, req.roundId.value) && req.quantity.value > Available(db.rounds[req.roundId.value]) ==>
      r == (db, BadRequest("Apenas " + Text.IntToString(Available(db.rounds[req.roundId.value])) + " cartela(s) disponível(is)"))
    ensures AdmitAsWritten(db, req, draws).Ok? ==>
      var a := AdmitAsWritten(db, req, draws).value;
      a.purchaseId in r.0.purchases && r.0.cards.Keys == a.db.cards.Keys
      && |a.cards| == CardsRequestedAsWritten(Reserve(db, req).value.userId)
  {
    Respond(PaymentService.GetClient, db, AdmitAsWritten(db, req, draws), req, transactionCode, charge)
  }

  /** `POST /purchases` with the card count corrected to the quantity bought and the settlement's client taken by `db.connect()`. */
  function CreatePurchaseFixed(db: Db, req: PurchaseRequest, draws: seq<CardGenerator.CardDraw>, transactionCode: string,
                               charge: Result<PaymentService.Charge>): (r: (Db, Reply))
    ensures Admit(db, req, draws).Err? ==> r.0 == db && (r.1.BadRequest? || r.1.ServerError?)
    ensures !Complete(req) ==> r == (db, BadRequest("Dados incompletos"))
    ensures Admit(db, req, draws).Ok? ==>
      var a := Admit(db, req, draws).value;
      a.purchaseId in r.0.purchases && r.0.cards.Keys == a.db.cards.Keys
      && (req.quantity.value > 0 ==> |a.cards| == req.quantity.value)
  {
    Respond(PaymentService.Connect, db, Admit(db, req, draws), req, transactionCode, charge)
  }

  /** The purchase and its cards are committed before payment: whatever the payment does, they stay. */
  lemma AdmittedPurchaseSurvivesPayment(db: Db, req: PurchaseRequest, draws: seq<CardGenerator.CardDraw>,
                                        transactionCode: string, charge: Result<PaymentService.Charge>)
    requires AdmitAsWritten(db, req, draws).Ok?
    ensures var a := AdmitAsWritten(db, req, draws).value;
      var db' := CreatePurchase(db, req, draws, transactionCode, charge).0;
      && a.purchaseId in db'.purchases
      && forall i :: 0 <= i < |a.cards| ==> a.cards[i] in db'.cards
  {
    var a := AdmitAsWritten(db, req, draws).value;
    var res := Reserve(db, req).value;
    var (db2, ids) := CardGenerator.GenerateCards(res.db, req.roundId.value, Some(res.purchaseId), CardsRequestedAsWritten(res.userId), draws).value;
    assert forall i :: 0 <= i < |ids| ==> ids[i] in db2.cards;
  }

  // ---------------------------------------------------------------- after the purchase

  /** `GET /purchases/:id/cards`: the cards, listed in `order`, only once the purchase is paid. */
  function ListCards(db: Db, pid: nat, order: seq<nat>): (r: Reply)
    requires Lists(order, CardsOfPurchase(db, pid))
    ensures r.Created? <==> pid in db.purchases && db.purchases[pid].status == Paid
    ensures r.Created? ==> forall c :: c in r.cards <==> c in db.cards && db.cards[c].purchaseId == Some(pid)
    ensures pid !in db.purchases ==> r.NotFound?
  {
    if pid !in db.purchases then NotFound("Compra não encontrada")
    else if db.purchases[pid].status != Paid then Forbidden("Compra ainda não foi paga")
    else Created(pid, order)
  }

  /** `POST /purchases/:id/cancel`: only a pending purchase can be cancelled, and only its status changes. */
  function Cancel(db: Db, pid: nat): (r: Result<Db>)
    ensures r.Ok? <==> pid in db.purchases && db.purchases[pid].status == Pending
    ensures r.Ok? ==> r.value == db.(purchases := db.purchases[pid := db.purchases[pid].(status := Voided)])
  {
    if pid in db.purchases && db.purchases[pid].status == Pending then
      Ok(db.(purchases := db.purchases[pid := db.purchases[pid].(status := Voided)]))
    else Err("Compra não pode ser cancelada")
  }

  /** Cancelling twice fails the second time, and a cancelled purchase's cards are never listed. */
  lemma CancelOnce(db: Db, pid: nat, order: seq<nat>)
    requires Cancel(db, pid).Ok?
    requires Lists(order, CardsOfPurchase(Cancel(db, pid).value, pid))
    ensures Cancel(Cancel(db, pid).value, pid).Err?
    ensures !ListCards(Cancel(db, pid).value, pid, order).Created?
  {
  }
}
