/**
  The persistent state: one record per table row, tables as maps keyed by the
  `SERIAL` id, and the settings rows the services read. A SQL NULL is `None`;
  a NULL `drawn_numbers` array is the empty sequence, which every reader treats alike.
  Money is a real number of reais and instants are integers in milliseconds.
 */
module Store {
  import opened Wrappers

  datatype RoundStatus = Scheduled | Selling | Drawing | Finished | Cancelled
  datatype RoundKind = Regular | Special
  datatype PaymentStatus = Pending | Paid | Failed | Voided | Expired | Refunded | Refunding | Disputed
  datatype CardStatus = Available | Sold
  /** `winners.status`: 'pending' until the prize is claimed. */
  datatype WinnerStatus = Unclaimed | Claimed

  datatype Round = Round(
    number: int,
    kind: RoundKind,
    status: RoundStatus,
    isSelling: bool,
    cardPrice: Option<real>,
    maxCards: int,
    cardsSold: int,
    startsAt: int,
    sellingEndsAt: int,
    endsAt: int,
    drawingStartedAt: Option<int>,
    finishedAt: Option<int>,
    drawn: seq<int>,
    totalSales: real,
    prizePool: real,
    charityAmount: real,
    platformAmount: real,
    commissionAmount: real,
    establishmentId: Option<nat>,
    managerId: Option<nat>,
    charityId: Option<nat>)

  datatype Purchase = Purchase(
    roundId: nat,
    userId: Option<nat>,
    establishmentId: Option<nat>,
    terminalId: Option<nat>,
    quantity: int,
    unitPrice: Option<real>,
    totalAmount: real,
    payMethod: string,
    status: PaymentStatus,
    pixExpiration: Option<int>,
    paidAt: Option<int>,
    refundedAt: Option<int>,
    refundReason: Option<string>,
    gateway: Option<string>,
    gatewayTxId: Option<string>,
    /** `expires_at`, written when a PIX charge is created; distinct from `pix_expiration`. */
    gatewayExpiresAt: Option<string>,
    transactionCode: Option<string>,
    customerWhatsapp: Option<string>)

  datatype Card = Card(
    code: string,
    roundId: nat,
    purchaseId: Option<nat>,
    userId: Option<nat>,
    numbers: seq<int>,
    status: CardStatus,
    isWinner: bool,
    declaredAt: Option<int>)

  datatype Winner = Winner(
    roundId: nat,
    cardId: nat,
    prizeAmount: real,
    pattern: string,
    status: WinnerStatus,
    pixKey: Option<string>,
    claimedAt: Option<int>)

  datatype Draw = Draw(roundId: nat, number: int, position: nat)

  datatype User = User(name: Option<string>, email: Option<string>, phone: Option<string>, cpf: Option<string>)

  datatype Establishment = Establishment(
    userId: nat,
    managerId: Option<nat>,
    name: string,
    code: string,
    slug: string,
    commissionRate: Option<real>,
    balance: real,
    totalCommission: real)

  datatype Manager = Manager(commissionRate: Option<real>, balance: real, totalCommission: real)

  datatype Charity = Charity(totalReceived: real)

  datatype Payee = ToEstablishment(establishmentId: nat) | ToManager(managerId: nat)

  datatype Commission = Commission(purchaseId: nat, payee: Payee, amount: real)

  // ---------------------------------------------------------------- settings rows

  /** One round type's entry of `round_config`. */
  datatype KindConfig = KindConfig(sellingMinutes: int, closedMinutes: int, cardPrice: Option<real>)

  datatype RoundConfig = RoundConfig(regular: KindConfig, special: KindConfig, maxCardsPerRound: Option<int>)

  /** `split_config`: percentages of a sale. */
  datatype SplitConfig = SplitConfig(prizePct: real, charityPct: real, platformPct: real, commissionPct: real)

  datatype Settings = Settings(
    roundConfig: Option<RoundConfig>,
    cardPriceRegular: Option<real>,
    cardPriceSpecial: Option<real>,
    maxCardsPerRound: Option<int>,
    split: Option<SplitConfig>,
    /** `gateway_config`: `None` when the row is missing; `Some(None)` when it names no active gateway. */
    gatewayConfig: Option<Option<string>>,
    winningPatterns: Option<seq<string>>)

  datatype Db = Db(
    rounds: map<nat, Round>,
    purchases: map<nat, Purchase>,
    cards: map<nat, Card>,
    draws: seq<Draw>,
    winners: map<nat, Winner>,
    users: map<nat, User>,
    establishments: map<nat, Establishment>,
    managers: map<nat, Manager>,
    charities: map<nat, Charity>,
    commissions: seq<Commission>,
    settings: Settings)

  /** `order` lists the rows a query returned: it lists each member of `s` exactly once. */
  ghost predicate Lists(order: seq<nat>, s: set<nat>) {
    && (forall i, j :: 0 <= i < j < |order| ==> order[i] != order[j])
    && (forall x :: x in order <==> x in s)
  }

  /** The ids of the cards bound to a purchase. */
  function CardsOfPurchase(db: Db, purchaseId: nat): (ids: set<nat>)
    ensures forall id :: id in ids <==> id in db.cards && db.cards[id].purchaseId == Some(purchaseId)
  {
    set id | id in db.cards && db.cards[id].purchaseId == Some(purchaseId)
  }

  /** JavaScript truthiness of an optional number: `null`, `undefined` and `0` are false. */
  predicate TruthyInt(x: Option<int>) {
    x.Some? && x.value != 0
  }

  /** A present foreign key: JavaScript treats a NULL and an id of 0 alike. */
  predicate PresentId(x: Option<nat>) {
    x.Some? && x.value != 0
  }

  predicate TruthyReal(x: Option<real>) {
    x.Some? && x.value != 0.0
  }

  /** A card price as it multiplies: a NULL price counts as 0. */
  function Price(p: Option<real>): real {
    if p.Some? then p.value else 0.0
  }

  /** `x / 100` where a SQL NULL rate reads as 0 in the arithmetic. */
  function Rate(x: Option<real>): real {
    if x.Some? then x.value / 100.0 else 0.0
  }

  /** The four nonzero writes of the fixed 40/20/30/10 split on a round. */
  function AddFixedSplit(r: Round, quantity: int, total: real): (r': Round)
    ensures r'.cardsSold == r.cardsSold + quantity
    ensures r'.prizePool == r.prizePool + total * 0.4 && r'.charityAmount == r.charityAmount + total * 0.2
    ensures r'.platformAmount == r.platformAmount + total * 0.3 && r'.commissionAmount == r.commissionAmount + total * 0.1
    ensures r'.status == r.status && r'.drawn == r.drawn && r'.totalSales == r.totalSales && r'.maxCards == r.maxCards
    ensures r'.isSelling == r.isSelling && r'.cardPrice == r.cardPrice
  {
    r.(cardsSold := r.cardsSold + quantity,
       prizePool := r.prizePool + total * 0.4,
       charityAmount := r.charityAmount + total * 0.2,
       platformAmount := r.platformAmount + total * 0.3,
       commissionAmount := r.commissionAmount + total * 0.1)
  }

  /** The fixed split hands out the whole sale: 40 + 20 + 30 + 10 percent. */
  lemma FixedSplitIsWhole(total: real)
    ensures total * 0.4 + total * 0.2 + total * 0.3 + total * 0.1 == total
  {
  }
}
