/**
  `routes/pos.js`: a sale at a point-of-sale terminal. A card sale is paid on the
  spot, so its cards and the round's fixed 40/20/30/10 split are booked at once; a
  PIX sale is stored pending and books nothing until it is paid.
 */
module PosRoute {
  import opened Wrappers
  import opened Store
  import Keys
  import CardGenerator

  /** The authenticated terminal (`request.terminal`). */
  datatype Terminal = Terminal(id: nat, establishmentId: Option<nat>)

  datatype Sale = Sale(db: Db, purchaseId: nat, cards: seq<nat>)

  /** Only the round's status is checked; `is_selling` and the card limit are not. */
  predicate SaleOpen(db: Db, roundId: Option<nat>) {
    roundId.Some? && roundId.value in db.rounds && db.rounds[roundId.value].status == Selling
  }

  /** The sale's purchase row: pending for PIX, paid for any other method. */
  function SalePurchase(t: Terminal, roundId: nat, quantity: int, price: Option<real>, payMethod: string): (p: Purchase)
    ensures p.status == (if payMethod == "pix" then Pending else Paid)
    ensures p.totalAmount == Price(price) * quantity as real && p.quantity == quantity
    ensures p.roundId == roundId && p.establishmentId == t.establishmentId && p.terminalId == Some(t.id)
  {
    Purchase(roundId, None, t.establishmentId, Some(t.id), quantity, price, Price(price) * quantity as real, payMethod,
             if payMethod == "pix" then Pending else Paid, None, None, None, None, None, None, None, None, None)
  }

  /**
    `POST /pos/sale`. A card whose code attempts all collide (the source retries for
    ever) fails the sale with no change.
   */
  function PosSale(db: Db, t: Terminal, roundId: Option<nat>, quantity: int, payMethod: string,
                   draws: seq<CardGenerator.CardDraw>): (r: Result<Sale>)
    ensures !SaleOpen(db, roundId) ==> r.Err?
    ensures SaleOpen(db, roundId) && payMethod == "pix" ==> r.Ok?
    ensures r.Ok? ==>
      var (db', pid) := (r.value.db, r.value.purchaseId);
      var round := db.rounds[roundId.value];
      && SaleOpen(db, roundId)
      && pid !in db.purchases && db'.purchases == db.purchases[pid := SalePurchase(t, roundId.value, quantity, round.cardPrice, payMethod)]
      && (payMethod == "pix" ==> r.value.cards == [] && db' == db.(purchases := db'.purchases))
      && (payMethod != "pix" ==>
            && db'.rounds == db.rounds[roundId.value := AddFixedSplit(round, quantity, db'.purchases[pid].totalAmount)]
            && |r.value.cards| == (if quantity > 0 then quantity else 0)
            && CardGenerator.AddsCards(db.(purchases := db'.purchases), db'.(rounds := db.rounds), r.value.cards, roundId.value, Some(pid)))
  {
    if !SaleOpen(db, roundId) then Err("Rodada não disponível")
    else
      var id := roundId.value;
      var round := db.rounds[id];
      var pid := Keys.FreshKey(db.purchases.Keys);
      var p := SalePurchase(t, id, quantity, round.cardPrice, payMethod);
      var db1 := db.(purchases := db.purchases[pid := p]);
      if payMethod == "pix" then Ok(Sale(db1, pid, []))
      else
        match CardGenerator.GenerateCards(db1, id, Some(pid), quantity, draws)
        case None => Err("Erro ao criar venda")
        case Some((db2, ids)) =>
          Ok(Sale(db2.(rounds := db2.rounds[id := AddFixedSplit(round, quantity, p.totalAmount)]), pid, ids))
  }

  /** The terminal sells past the round's card limit: a paid sale is booked even when it exceeds `max_cards`. */
  lemma PosIgnoresCapacity(db: Db, t: Terminal, roundId: Option<nat>, quantity: int, payMethod: string,
                           draws: seq<CardGenerator.CardDraw>)
    requires SaleOpen(db, roundId) && payMethod != "pix"
    requires quantity > db.rounds[roundId.value].maxCards - db.rounds[roundId.value].cardsSold
    requires PosSale(db, t, roundId, quantity, payMethod, draws).Ok?
    ensures var db' := PosSale(db, t, roundId, quantity, payMethod, draws).value.db;
      roundId.value in db'.rounds && db'.rounds[roundId.value].cardsSold > db'.rounds[roundId.value].maxCards
  {
  }

  /** A paid sale's four shares add up to the sale's total. */
  lemma PosSplitIsWhole(db: Db, t: Terminal, roundId: Option<nat>, quantity: int, payMethod: string,
                        draws: seq<CardGenerator.CardDraw>)
    requires payMethod != "pix" && PosSale(db, t, roundId, quantity, payMethod, draws).Ok?
    ensures var sale := PosSale(db, t, roundId, quantity, payMethod, draws).value;
      var before := db.rounds[roundId.value];
      var after := sale.db.rounds[roundId.value];
      (after.prizePool - before.prizePool) + (after.charityAmount - before.charityAmount)
        + (after.platformAmount - before.platformAmount) + (after.commissionAmount - before.commissionAmount)
        == sale.db.purchases[sale.purchaseId].totalAmount
  {
    var sale := PosSale(db, t, roundId, quantity, payMethod, draws).value;
    FixedSplitIsWhole(sale.db.purchases[sale.purchaseId].totalAmount);
  }
}
