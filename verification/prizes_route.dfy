/**
  `routes/prizes.js`: looking up a card's prize and claiming it. A claim moves the
  card's pending winner rows to claimed, storing the PIX key to pay; a claimed row
  cannot be claimed again.
 */
module PrizesRoute {
  import opened Wrappers
  import opened Store
  import Keys

  /** A winner row joined to a card with the code. */
  predicate WinnerOfCode(db: Db, w: nat, code: string)
    requires w in db.winners
  {
    db.winners[w].cardId in db.cards && db.cards[db.winners[w].cardId].code == code
  }

  /** `GET /prizes/check/:cardCode`: the prize row, the lowest id standing for the first row returned. */
  function CheckPrize(db: Db, code: string): (r: Option<nat>)
    ensures r.None? <==> forall w :: w in db.winners ==> !WinnerOfCode(db, w, code)
    ensures r.Some? ==> r.value in db.winners && WinnerOfCode(db, r.value, code)
  {
    var ids := set w | w in db.winners && WinnerOfCode(db, w, code) :: w as int;
    if ids == {} then
      assert forall w :: w in db.winners && WinnerOfCode(db, w, code) ==> (w as int) in ids;
      None
    else
      var m := Keys.SetMin(ids);
      assert m in ids;
      var w :| w in db.winners && WinnerOfCode(db, w, code) && w as int == m;
      Some(w)
  }

  /** The rows a claim updates: the card's winner rows still pending. */
  predicate Claimable(db: Db, w: nat, code: string)
    requires w in db.winners
  {
    WinnerOfCode(db, w, code) && db.winners[w].status == Unclaimed
  }

  function ClaimRow(r: Winner, pixKey: string, now: int): Winner {
    r.(status := Claimed, pixKey := Some(pixKey), claimedAt := Some(now))
  }

  /**
    `POST /prizes/claim`: both the card code and the PIX key are required; every
    pending winner row of the card becomes claimed with the key, and a claim that
    updates no row fails.
   */
  function Claim(db: Db, cardCode: Option<string>, pixKey: Option<string>, now: int): (r: Result<Db>)
    ensures cardCode.None? || cardCode == Some("") || pixKey.None? || pixKey == Some("") ==> r.Err?
    ensures r.Ok? <==>
      (cardCode.Some? && cardCode.value != "" && pixKey.Some? && pixKey.value != ""
       && exists w :: w in db.winners && Claimable(db, w, cardCode.value))
    ensures r.Ok? ==>
      && r.value == db.(winners := r.value.winners)
      && r.value.winners.Keys == db.winners.Keys
      && forall w :: w in db.winners ==>
           r.value.winners[w] == if Claimable(db, w, cardCode.value) then ClaimRow(db.winners[w], pixKey.value, now) else db.winners[w]
  {
    if cardCode.None? || cardCode.value == "" || pixKey.None? || pixKey.value == "" then
      Err("Código da cartela e chave PIX são obrigatórios")
    else if forall w :: w in db.winners ==> !Claimable(db, w, cardCode.value) then
      Err("Prêmio não encontrado ou já resgatado")
    else
      var winners := map w | w in db.winners ::
        if Claimable(db, w, cardCode.value) then ClaimRow(db.winners[w], pixKey.value, now) else db.winners[w];
      Ok(db.(winners := winners))
  }

  /** A second claim for the same card finds nothing pending and fails. */
  lemma SecondClaimFails(db: Db, cardCode: Option<string>, pixKey: Option<string>, again: Option<string>, now: int, later: int)
    requires Claim(db, cardCode, pixKey, now).Ok?
    ensures Claim(Claim(db, cardCode, pixKey, now).value, cardCode, again, later).Err?
  {
    var db' := Claim(db, cardCode, pixKey, now).value;
    forall w | w in db'.winners
      ensures !Claimable(db', w, cardCode.value)
    {
    }
  }

  /** A claim never touches another card's prize nor a row already claimed. */
  lemma ClaimTouchesOnlyPending(db: Db, cardCode: Option<string>, pixKey: Option<string>, now: int, w: nat)
    requires Claim(db, cardCode, pixKey, now).Ok? && w in db.winners
    requires db.winners[w].status == Claimed || !WinnerOfCode(db, w, cardCode.value)
    ensures Claim(db, cardCode, pixKey, now).value.winners[w] == db.winners[w]
  {
  }

  /** After a successful claim the card has a prize on record, and every row of it is claimed. */
  lemma ClaimedPrizeIsFound(db: Db, cardCode: Option<string>, pixKey: Option<string>, now: int)
    requires Claim(db, cardCode, pixKey, now).Ok?
    ensures var db' := Claim(db, cardCode, pixKey, now).value;
      && CheckPrize(db', cardCode.value).Some?
      && forall w :: w in db'.winners && WinnerOfCode(db', w, cardCode.value) ==> db'.winners[w].status == Claimed
  {
    var db' := Claim(db, cardCode, pixKey, now).value;
    var w :| w in db.winners && Claimable(db, w, cardCode.value);
    assert WinnerOfCode(db', w, cardCode.value);
  }
}
