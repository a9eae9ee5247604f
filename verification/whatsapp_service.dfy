/**
  `services/whatsappService.js`: the message that carries a purchase's card codes,
  and the decisions taken before anything is sent. The provider's HTTP API is left
  out; its answer is an input. Dates arrive already rendered in the `pt-BR` locale.
 */
module WhatsApp {
  import opened Wrappers
  import opened Store
  import Text

  /** What the service reports back. */
  datatype SendResult = SendResult(success: bool, error: Option<string>)

  /** The `whatsapp_config` settings row. */
  datatype WhatsAppConfig = WhatsAppConfig(isActive: bool, messageTemplate: Option<string>)

  /** The round fields the message uses. */
  datatype RoundInfo = RoundInfo(id: nat, number: int, roundType: string)

  /** A `whatsapp_logs` row. */
  datatype LogEntry = LogEntry(phone: string, codes: seq<string>, sent: bool, error: Option<string>)

  /** One attempt: the reported result, the message handed to the provider, and the log row written. */
  datatype Delivery = Delivery(result: SendResult, message: Option<string>, log: Option<LogEntry>)

  // ---------------------------------------------------------------- the message

  /** `type === 'regular' ? 'Regular' : 'Especial'`. */
  function TypeLabel(roundType: string): (name: string)
    ensures name == "Regular" <==> roundType == "regular"
    ensures name == "Especial" <==> roundType != "regular"
  {
    if roundType == "regular" then "Regular" else "Especial"
  }

  const Ticket: string := "\U{1F3AB}"

  /** The default message's line for one card: `🎫 *code*`. */
  function CardLine(code: string): string {
    Ticket + " *" + code + "*"
  }

  /** `cardCodes.map(code => …)`: one line per code, in the codes' order. */
  function CardLines(codes: seq<string>): (lines: seq<string>)
    ensures |lines| == |codes|
    ensures forall i :: 0 <= i < |codes| ==> lines[i] == CardLine(codes[i])
  {
    seq(|codes|, i requires 0 <= i < |codes| => CardLine(codes[i]))
  }

  function LiveLink(roundId: nat): string {
    "https://sortebem.com.br/live/" + Text.NatToString(roundId)
  }

  const Heading: string := "\U{1F389} *SORTEBEM - Suas Cartelas!* \U{1F389}\n\nOl\U{00E1}! Aqui est\U{00E3}o suas cartelas para a rodada #"
  const DrawLabel: string := "\n\n\U{1F4C5} *Sorteio:* "
  const LiveLabel: string := "\n\n\U{1F517} *Acompanhe ao vivo:*\n"
  const Closing: string := "\n\n\U{1F340} *Boa sorte!*\n\n_Guarde bem seus c\U{00F3}digos. Voc\U{00EA} precisar\U{00E1} deles para resgatar o pr\U{00EA}mio caso ganhe._"

  /** The heading with the round's number and type. */
  function MessageHead(info: RoundInfo): string {
    Heading + Text.IntToString(info.number) + " (" + TypeLabel(info.roundType) + "):\n\n"
  }

  /** The draw time, the live link and the closing lines. */
  function MessageTail(startsAt: string, roundId: nat): string {
    DrawLabel + startsAt + LiveLabel + LiveLink(roundId) + Closing
  }

  /** The built-in message: heading, round, the card lines, the draw time, the live link and the closing lines. */
  function DefaultMessage(codes: seq<string>, info: RoundInfo, startsAt: string): string {
    MessageHead(info) + Text.Join(CardLines(codes), "\n") + MessageTail(startsAt, info.id)
  }

  const CardsPlaceholder: string := "{cards}"

  /** A custom template with the first occurrence of each placeholder replaced, in this order. */
  function FillTemplate(template: string, codes: seq<string>, info: RoundInfo, startsAt: string): string {
    FillRest(Text.ReplaceFirst(template, CardsPlaceholder, Text.Join(codes, ", ")), info, startsAt)
  }

  /** The replacements after `{cards}`. */
  function FillRest(s1: string, info: RoundInfo, startsAt: string): string {
    var s2 := Text.ReplaceFirst(s1, "{round_number}", Text.IntToString(info.number));
    var s3 := Text.ReplaceFirst(s2, "{round_type}", TypeLabel(info.roundType));
    Text.ReplaceFirst(s3, "{starts_at}", startsAt)
  }

  /** Without the later placeholders, the later replacements change nothing. */
  lemma FillRestUnchanged(s: string, info: RoundInfo, startsAt: string)
    requires Text.IndexOf(s, "{round_number}").None? && Text.IndexOf(s, "{round_type}").None?
    requires Text.IndexOf(s, "{starts_at}").None?
    ensures FillRest(s, info, startsAt) == s
  {
  }

  /** `buildCardMessage`: a truthy template is filled in; otherwise the built-in message is used. */
  function BuildCardMessage(codes: seq<string>, info: RoundInfo, template: Option<string>, startsAt: string): (m: string)
    ensures template.Some? && template.value != "" ==> m == FillTemplate(template.value, codes, info, startsAt)
    ensures !(template.Some? && template.value != "") ==> m == DefaultMessage(codes, info, startsAt)
  {
    if template.Some? && template.value != "" then FillTemplate(template.value, codes, info, startsAt)
    else DefaultMessage(codes, info, startsAt)
  }

  /** Every card's line appears in the built-in message. */
  lemma DefaultMessageListsEveryCard(codes: seq<string>, info: RoundInfo, startsAt: string, k: nat)
    requires k < |codes|
    ensures Text.IsInfix(CardLine(codes[k]), BuildCardMessage(codes, info, None, startsAt))
  {
    var lines := CardLines(codes);
    Text.JoinContains(lines, "\n", k);
    Text.InfixWithin(CardLine(codes[k]), Text.Join(lines, "\n"), MessageHead(info), MessageTail(startsAt, info.id));
  }

  /** The built-in message links to the round's live page. */
  lemma DefaultMessageLinksLivePage(codes: seq<string>, info: RoundInfo, startsAt: string)
    ensures Text.IsInfix(LiveLink(info.id), BuildCardMessage(codes, info, None, startsAt))
  {
    var link := LiveLink(info.id);
    var tail := MessageTail(startsAt, info.id);
    assert Text.OccursAt(link, link, 0);
    Text.InfixWithin(link, link, DrawLabel + startsAt + LiveLabel, Closing);
    var front := MessageHead(info) + Text.Join(CardLines(codes), "\n");
    Text.InfixWithin(link, tail, front, "");
    assert front + tail + "" == DefaultMessage(codes, info, startsAt);
  }

  predicate NoBrace(s: string) {
    forall i :: 0 <= i < |s| ==> s[i] != '{'
  }

  lemma {:induction false} JoinNoBrace(xs: seq<string>, sep: string)
    requires NoBrace(sep) && forall i :: 0 <= i < |xs| ==> NoBrace(xs[i])
    ensures NoBrace(Text.Join(xs, sep))
  {
    if |xs| > 1 {
      JoinNoBrace(xs[1..], sep);
      assert Text.Join(xs, sep) == xs[0] + sep + Text.Join(xs[1..], sep);
    }
  }

  /** A template without placeholders is sent as it is. */
  lemma TemplateWithoutPlaceholders(template: string, codes: seq<string>, info: RoundInfo, startsAt: string)
    requires template != "" && NoBrace(template)
    ensures BuildCardMessage(codes, info, Some(template), startsAt) == template
  {
    Text.NoOccurrence(template, CardsPlaceholder, |template|);
    Text.NoOccurrence(template, "{round_number}", |template|);
    Text.NoOccurrence(template, "{round_type}", |template|);
    Text.NoOccurrence(template, "{starts_at}", |template|);
    FillRestUnchanged(template, info, startsAt);
  }

  /**
    Only the first occurrence of `{cards}` is filled in: whatever follows it, a second
    `{cards}` included, is kept as it is, provided it holds none of the later
    placeholders and the codes hold no braces (generated card codes hold none).
   */
  lemma OnlyFirstPlaceholderFilled(codes: seq<string>, info: RoundInfo, startsAt: string, post: string)
    requires forall i :: 0 <= i < |codes| ==> NoBrace(codes[i])
    requires Text.IndexOf(post, "{round_number}").None? && Text.IndexOf(post, "{round_type}").None?
    requires Text.IndexOf(post, "{starts_at}").None?
    ensures BuildCardMessage(codes, info, Some(CardsPlaceholder + post), startsAt) == Text.Join(codes, ", ") + post
  {
    CodesJoinNoBrace(codes);
    FilledAfterCards(Text.Join(codes, ", "), post, info, startsAt);
    TemplateIsFilled(codes, info, CardsPlaceholder + post, startsAt);
  }

  lemma CodesJoinNoBrace(codes: seq<string>)
    requires forall i :: 0 <= i < |codes| ==> NoBrace(codes[i])
    ensures NoBrace(Text.Join(codes, ", "))
  {
    assert NoBrace(", ");
    JoinNoBrace(codes, ", ");
  }

  lemma TemplateIsFilled(codes: seq<string>, info: RoundInfo, template: string, startsAt: string)
    requires |template| > 0
    ensures BuildCardMessage(codes, info, Some(template), startsAt)
         == FillRest(Text.ReplaceFirst(template, CardsPlaceholder, Text.Join(codes, ", ")), info, startsAt)
  {
  }

  /** Filling `{cards}` at the very start with brace-free text leaves the rest to the later replacements, which find nothing. */
  lemma FilledAfterCards(joined: string, post: string, info: RoundInfo, startsAt: string)
    requires NoBrace(joined)
    requires Text.IndexOf(post, "{round_number}").None? && Text.IndexOf(post, "{round_type}").None?
    requires Text.IndexOf(post, "{starts_at}").None?
    ensures FillRest(Text.ReplaceFirst(CardsPlaceholder + post, CardsPlaceholder, joined), info, startsAt) == joined + post
  {
    Text.ReplaceAtStart(CardsPlaceholder, post, joined);
    BraceFreePrefix(joined, post, "{round_number}");
    BraceFreePrefix(joined, post, "{round_type}");
    BraceFreePrefix(joined, post, "{starts_at}");
    FillRestUnchanged(joined + post, info, startsAt);
  }

  /** A placeholder absent from `b` is absent from `b` behind a brace-free prefix. */
  lemma BraceFreePrefix(a: string, b: string, pat: string)
    requires NoBrace(a) && pat != [] && pat[0] == '{'
    requires Text.IndexOf(b, pat).None?
    ensures Text.IndexOf(a + b, pat).None?
  {
    var s := a + b;
    forall j: nat
      ensures !Text.OccursAt(s, pat, j)
    {
      if j < |a| {
        assert s[j] == a[j];
        if j + |pat| <= |s| {
          assert s[j..j + |pat|][0] == s[j];
        }
      } else {
        assert !Text.OccursAt(b, pat, j - |a|);
        if j + |pat| <= |s| {
          assert s[j..j + |pat|] == b[j - |a|..j - |a| + |pat|];
        }
      }
    }
    assert forall j :: 0 <= j ==> !Text.OccursAt(s, pat, j);
  }

  // ---------------------------------------------------------------- sending

  /** `result.error || null`: an empty error is stored as NULL. */
  function LogError(error: Option<string>): (e: Option<string>)
    ensures e.Some? <==> error.Some? && error.value != ""
    ensures e.Some? ==> e == error
  {
    if error.Some? && error.value != "" then error else None
  }

  /**
    `sendCardsViaWhatsApp`: with no active configuration nothing is sent or logged;
    otherwise the message is built from the configured template, the provider's
    answer (`apiResult`) is returned, and a log row records it.
   */
  function SendCardsViaWhatsApp(phone: string, codes: seq<string>, info: RoundInfo, config: Option<WhatsAppConfig>,
                                startsAt: string, apiResult: SendResult): (d: Delivery)
    ensures !(config.Some? && config.value.isActive) ==>
      d == Delivery(SendResult(false, Some("WhatsApp não configurado")), None, None)
    ensures config.Some? && config.value.isActive ==>
      && d.result == apiResult
      && d.message == Some(BuildCardMessage(codes, info, config.value.messageTemplate, startsAt))
      && d.log == Some(LogEntry(phone, codes, apiResult.success, LogError(apiResult.error)))
  {
    if config.None? || !config.value.isActive then
      Delivery(SendResult(false, Some("WhatsApp não configurado")), None, None)
    else
      Delivery(apiResult, Some(BuildCardMessage(codes, info, config.value.messageTemplate, startsAt)),
               Some(LogEntry(phone, codes, apiResult.success, LogError(apiResult.error))))
  }

  /** The inner joins of the query: the purchase, its user, its round and at least one card. */
  predicate Found(db: Db, pid: nat) {
    && pid in db.purchases
    && db.purchases[pid].userId.Some? && db.purchases[pid].userId.value in db.users
    && db.purchases[pid].roundId in db.rounds
    && exists c :: c in db.cards && db.cards[c].purchaseId == Some(pid)
  }

  function RoundInfoOf(db: Db, rid: nat): RoundInfo
    requires rid in db.rounds
  {
    RoundInfo(rid, db.rounds[rid].number, if db.rounds[rid].kind == Regular then "regular" else "special")
  }

  /** The codes of the listed cards, in the listed order. */
  function CodesOf(db: Db, order: seq<nat>): (codes: seq<string>)
    requires forall c :: c in order ==> c in db.cards
    ensures |codes| == |order| && forall i :: 0 <= i < |order| ==> codes[i] == db.cards[order[i]].code
  {
    seq(|order|, i requires 0 <= i < |order| => db.cards[order[i]].code)
  }

  /**
    `sendPurchaseCards`: an unknown purchase, or one without user, round or cards, and
    a user without a phone are reported without sending; otherwise the purchase's
    codes (`order` lists its cards as `array_agg` returned them) go to the user's phone.
   */
  function SendPurchaseCards(db: Db, pid: nat, order: seq<nat>, config: Option<WhatsAppConfig>,
                             startsAt: string, apiResult: SendResult): (d: Delivery)
    requires Lists(order, CardsOfPurchase(db, pid))
    ensures !Found(db, pid) ==> d == Delivery(SendResult(false, Some("Compra não encontrada")), None, None)
    ensures Found(db, pid) ==>
      var phone := db.users[db.purchases[pid].userId.value].phone;
      && (!(phone.Some? && phone.value != "") ==> d == Delivery(SendResult(false, Some("Telefone não cadastrado")), None, None))
      && (phone.Some? && phone.value != "" ==>
            d == SendCardsViaWhatsApp(phone.value, CodesOf(db, order), RoundInfoOf(db, db.purchases[pid].roundId), config, startsAt, apiResult))
  {
    if !Found(db, pid) then Delivery(SendResult(false, Some("Compra não encontrada")), None, None)
    else
      var phone := db.users[db.purchases[pid].userId.value].phone;
      if !(phone.Some? && phone.value != "") then Delivery(SendResult(false, Some("Telefone não cadastrado")), None, None)
      else SendCardsViaWhatsApp(phone.value, CodesOf(db, order), RoundInfoOf(db, db.purchases[pid].roundId), config, startsAt, apiResult)
  }

  /**
    A message goes out only to a user with a phone and an active configuration, and
    then it carries one code for each of the purchase's cards.
   */
  lemma MessageOnlyWithPhoneAndConfig(db: Db, pid: nat, order: seq<nat>, config: Option<WhatsAppConfig>,
                                      startsAt: string, apiResult: SendResult)
    requires Lists(order, CardsOfPurchase(db, pid))
    ensures var d := SendPurchaseCards(db, pid, order, config, startsAt, apiResult);
      d.message.Some? ==>
        && Found(db, pid)
        && (var phone := db.users[db.purchases[pid].userId.value].phone;
            phone.Some? && phone.value != "" && config.Some? && config.value.isActive)
        && d.log.Some? && |d.log.value.codes| == |CardsOfPurchase(db, pid)|
  {
    var d := SendPurchaseCards(db, pid, order, config, startsAt, apiResult);
    if d.message.Some? {
      ListedCount(order, CardsOfPurchase(db, pid));
    }
  }

  /** A duplicate-free listing of a set is as long as the set is large. */
  lemma {:induction false} ListedCount(order: seq<nat>, s: set<nat>)
    requires Lists(order, s)
    ensures |order| == |s|
    decreases |order|
  {
    if order != [] {
      var rest := order[1..];
      assert Lists(rest, s - {order[0]}) by {
        forall x ensures x in rest <==> x in s - {order[0]} {
          if x in rest {
            var i :| 0 <= i < |rest| && rest[i] == x;
            assert order[i + 1] == x;
          }
          if x in s - {order[0]} {
            var i :| 0 <= i < |order| && order[i] == x;
            assert i != 0;
            assert rest[i - 1] == x;
          }
        }
      }
      ListedCount(rest, s - {order[0]});
    }
  }
}
