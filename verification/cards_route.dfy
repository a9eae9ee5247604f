/**
  `routes/cards.js`: checking a card against the draw and declaring victory. Victory
  is declared in one transaction that either marks the card and records one winner
  row, or changes nothing.
 */
module CardsRoute {
  import opened Wrappers
  import opened Store
  import Keys
  import WinChecker

  /** The card `getCardByCode` returns: among those with the code, the lowest id stands for the first row. */
  function CardByCode(db: Db, code: string): (r: Option<nat>)
    ensures r.Some? ==> r.value in db.cards && db.cards[r.value].code == code
    ensures r.Some? ==> forall c :: c in db.cards && db.cards[c].code == code ==> r.value <= c
    ensures r.None? <==> forall c :: c in db.cards ==> db.cards[c].code != code
  {
    var ids := set c | c in db.cards && db.cards[c].code == code :: c as int;
    if ids == {} then
      assert forall c :: c in db.cards && db.cards[c].code == code ==> (c as int) in ids;
      None
    else
      var m := Keys.SetMin(ids);
      assert m in ids;
      var c :| c in db.cards && db.cards[c].code == code && c as int == m;
      assert forall c' :: c' in db.cards && db.cards[c'].code == code ==> (c' as int) in ids;
      Some(c)
  }

  /** `getSetting('winning_patterns') || [...]`: the four line patterns when the setting is absent. */
  function ActivePatterns(settings: Settings): (ps: seq<string>)
    ensures settings.winningPatterns.None? ==> ps == WinChecker.DefaultPatterns
    ensures settings.winningPatterns.Some? ==> ps == settings.winningPatterns.value
  {
    if settings.winningPatterns.Some? then settings.winningPatterns.value else WinChecker.DefaultPatterns
  }

  datatype CheckReply =
    | CardNotFound
    | RoundNotFound
    /** No number drawn yet: `won` is false without consulting the checker. */
    | NotStarted(roundStatus: RoundStatus)
    | Checked(roundStatus: RoundStatus, drawnCount: nat, result: WinChecker.WinResult)

  /** `GET /cards/:code/check`. */
  function CheckCard(db: Db, code: string): (r: CheckReply)
    ensures r.CardNotFound? <==> CardByCode(db, code).None?
    ensures r.NotStarted? ==> var c := CardByCode(db, code).value;
      db.cards[c].roundId in db.rounds && db.rounds[db.cards[c].roundId].drawn == []
    ensures r.Checked? ==> var c := CardByCode(db, code).value;
      db.cards[c].roundId in db.rounds &&
      var round := db.rounds[db.cards[c].roundId];
      && r.drawnCount == |round.drawn| > 0
      && (r.result.NoWin? <==> forall i :: 0 <= i < |ActivePatterns(db.settings)| ==>
            !WinChecker.PatternSatisfied(db.cards[c].numbers, round.drawn, ActivePatterns(db.settings)[i]))
  {
    match CardByCode(db, code)
    case None => CardNotFound
    case Some(c) =>
      var card := db.cards[c];
      if card.roundId !in db.rounds then RoundNotFound
      else
        var round := db.rounds[card.roundId];
        if round.drawn == [] then NotStarted(round.status)
        else
          WinChecker.CheckWinMeaning(card.numbers, round.drawn, ActivePatterns(db.settings));
          Checked(round.status, |round.drawn|, WinChecker.CheckWin(card.numbers, round.drawn, ActivePatterns(db.settings)))
  }

  /** Before the first draw no card is reported as a winner, whatever its numbers. */
  lemma NoDrawsNoWin(db: Db, code: string)
    requires CardByCode(db, code).Some?
    requires var c := CardByCode(db, code).value; db.cards[c].roundId in db.rounds && db.rounds[db.cards[c].roundId].drawn == []
    ensures CheckCard(db, code).NotStarted?
  {
  }

  datatype DeclareReply =
    | NotFound
    | NotPaid
    | NotDrawing
    | NoPattern
    | AlreadyDeclared
    | Declared(pattern: string, prizeAmount: real)
    /** The round row is missing: reading its status throws. */
    | ServerError

  /** The joined `payment_status` of a card: that of its purchase, NULL when it has none. */
  predicate CardPaid(db: Db, c: nat)
    requires c in db.cards
  {
    db.cards[c].purchaseId.Some? && db.cards[c].purchaseId.value in db.purchases
    && db.purchases[db.cards[c].purchaseId.value].status == Paid
  }

  /**
    `POST /cards/:code/declare-victory`: found, paid, round drawing, a pattern
    completed, not yet declared — checked in that order, each failure rolling back.
    On success the card is marked and one winner row is inserted with the round's
    whole current prize pool.
   */
  function DeclareVictory(db: Db, code: string, now: int): (r: (Db, DeclareReply))
    ensures !r.1.Declared? ==> r.0 == db
    ensures r.1.NotFound? <==> CardByCode(db, code).None?
    ensures r.1.Declared? ==>
      var c := CardByCode(db, code).value;
      var card := db.cards[c];
      card.roundId in db.rounds &&
      var round := db.rounds[card.roundId];
      var result := WinChecker.CheckWin(card.numbers, round.drawn, ActivePatterns(db.settings));
      && CardPaid(db, c) && round.status == Drawing && result.Win? && !card.isWinner
      && r.1 == Declared(result.pattern, round.prizePool)
      && r.0.cards == db.cards[c := card.(isWinner := true, declaredAt := Some(now))]
      && (exists w: nat :: w !in db.winners
            && r.0.winners == db.winners[w := Winner(card.roundId, c, round.prizePool, result.pattern, Unclaimed, None, None)])
      && r.0 == db.(cards := r.0.cards, winners := r.0.winners)
  {
    match CardByCode(db, code)
    case None => (db, NotFound)
    case Some(c) =>
      var card := db.cards[c];
      if !CardPaid(db, c) then (db, NotPaid)
      else if card.roundId !in db.rounds then (db, ServerError)
      else
        var round := db.rounds[card.roundId];
        if round.status != Drawing then (db, NotDrawing)
        else
          var result := WinChecker.CheckWin(card.numbers, round.drawn, ActivePatterns(db.settings));
          if result.NoWin? then (db, NoPattern)
          else if card.isWinner then (db, AlreadyDeclared)
          else
            var w := Keys.FreshKey(db.winners.Keys);
            var winner := Winner(card.roundId, c, round.prizePool, result.pattern, Unclaimed, None, None);
            (db.(cards := db.cards[c := card.(isWinner := true, declaredAt := Some(now))], winners := db.winners[w := winner]),
             Declared(result.pattern, round.prizePool))
  }

  /**
    Winner rows and card flags agree: every winner row names a card marked as a
    winner, and no card has two winner rows.
   */
  predicate WinnersMatchFlags(db: Db) {
    && (forall w :: w in db.winners ==> db.winners[w].cardId in db.cards && db.cards[db.winners[w].cardId].isWinner)
    && (forall v, w :: v in db.winners && w in db.winners && v != w ==> db.winners[v].cardId != db.winners[w].cardId)
  }

  /** Declaring victory keeps winner rows and card flags in agreement. */
  lemma DeclareKeepsWinnersMatched(db: Db, code: string, now: int)
    requires WinnersMatchFlags(db)
    ensures WinnersMatchFlags(DeclareVictory(db, code, now).0)
  {
    var (db', reply) := DeclareVictory(db, code, now);
    if reply.Declared? {
      var c := CardByCode(db, code).value;
      var w :| w !in db.winners
        && db'.winners == db.winners[w := Winner(db.cards[c].roundId, c, db.rounds[db.cards[c].roundId].prizePool, reply.pattern, Unclaimed, None, None)];
      forall v | v in db.winners
        ensures db.winners[v].cardId != c
      {
        assert db.cards[db.winners[v].cardId].isWinner;
      }
    }
  }

  /**
    A declaration succeeds at most once per card: declaring again answers that the
    victory was already declared and changes nothing.
   */
  lemma DeclareOnce(db: Db, code: string, now: int, later: int)
    requires DeclareVictory(db, code, now).1.Declared?
    ensures var db' := DeclareVictory(db, code, now).0;
      DeclareVictory(db', code, later) == (db', AlreadyDeclared)
  {
    var db' := DeclareVictory(db, code, now).0;
    var c := CardByCode(db, code).value;
    assert CardByCode(db', code) == Some(c) by {
      assert db'.cards.Keys == db.cards.Keys;
      forall k | k in db.cards
        ensures db'.cards[k].code == db.cards[k].code
      {
      }
    }
    assert CardPaid(db', c);
  }
}
