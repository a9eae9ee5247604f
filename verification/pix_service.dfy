/**
  `services/pixService.js`: the checks and normalisations of PIX keys and codes, the
  status mapping of a PIX webhook, and the (zero) fee. Code and QR generation are
  random and left out.
 */
module PixService {
  import opened Wrappers
  import opened Json
  import Text

  // ---------------------------------------------------------------- e-mail keys

  /** A character of the class `[^\s@]`. */
  predicate PlainChar(c: char) {
    !Text.IsJsSpace(c) && c != '@'
  }

  predicate AllPlain(s: string) {
    forall i :: 0 <= i < |s| ==> PlainChar(s[i])
  }

  /** What `/^[^\s@]+@[^\s@]+\.[^\s@]+$/` accepts, stated as the pattern's three parts. */
  ghost predicate EmailShape(s: string) {
    exists a: string, b: string, c: string ::
      (&& s == a + "@" + b + "." + c
       && a != [] && b != [] && c != []
       && AllPlain(a) && AllPlain(b) && AllPlain(c))
  }

  /**
    A decision procedure for the pattern: no white space, exactly one `@` with
    something before it, and a `.` after it that is neither first nor last in the
    domain.
   */
  predicate IsEmail(s: string) {
    exists i :: 0 < i < |s| && s[i] == '@' && EmailAt(s, i)
  }

  predicate EmailAt(s: string, i: nat)
    requires i < |s|
  {
    && (forall j :: 0 <= j < |s| ==> (s[j] == '@' <==> j == i) && !Text.IsJsSpace(s[j]))
    && (exists k :: i + 1 < k < |s| - 1 && s[k] == '.')
  }

  /** The three parts split around the `@` and the first `.` after it. */
  lemma EmailHasShape(s: string, i: nat, k: nat)
    requires 0 < i < |s| && s[i] == '@' && EmailAt(s, i)
    requires i + 1 < k < |s| - 1 && s[k] == '.'
    ensures EmailShape(s)
  {
    var a, b, c := s[..i], s[i + 1..k], s[k + 1..];
    assert s == a + "@" + b + "." + c;
    assert AllPlain(a) by {
      forall j | 0 <= j < |a| ensures PlainChar(a[j]) { assert a[j] == s[j]; }
    }
    assert AllPlain(b) by {
      forall j | 0 <= j < |b| ensures PlainChar(b[j]) { assert b[j] == s[i + 1 + j]; }
    }
    assert AllPlain(c) by {
      forall j | 0 <= j < |c| ensures PlainChar(c[j]) { assert c[j] == s[k + 1 + j]; }
    }
  }

  /** Joining three plain parts with `@` and `.` passes the decision procedure. */
  lemma ShapeIsEmail(a: string, b: string, c: string)
    requires a != [] && b != [] && c != [] && AllPlain(a) && AllPlain(b) && AllPlain(c)
    ensures IsEmail(a + "@" + b + "." + c)
  {
    var s := a + "@" + b + "." + c;
    var i := |a|;
    var k := |a| + 1 + |b|;
    assert s[i] == '@' && s[k] == '.';
    forall j | 0 <= j < |s|
      ensures (s[j] == '@' <==> j == i) && !Text.IsJsSpace(s[j])
    {
      if j < i {
        assert s[j] == a[j];
      } else if i < j < k {
        assert s[j] == b[j - i - 1];
      } else if j > k {
        assert s[j] == c[j - k - 1];
      }
    }
    assert EmailAt(s, i);
  }

  lemma EmailShapeIsEmail(s: string)
    ensures IsEmail(s) <==> EmailShape(s)
  {
    if IsEmail(s) {
      var i :| 0 < i < |s| && s[i] == '@' && EmailAt(s, i);
      var k :| i + 1 < k < |s| - 1 && s[k] == '.';
      EmailHasShape(s, i, k);
    }
    if EmailShape(s) {
      var a: string, b: string, c: string :|
        (&& s == a + "@" + b + "." + c
         && a != [] && b != [] && c != []
         && AllPlain(a) && AllPlain(b) && AllPlain(c));
      ShapeIsEmail(a, b, c);
    }
  }

  // ---------------------------------------------------------------- keys

  /** `validatePixKey`: e-mails by pattern, the document and phone types by digit count only. */
  function ValidatePixKey(key: string, keyType: string): (ok: bool)
    ensures keyType == "email" ==> (ok <==> EmailShape(key))
    ensures keyType == "phone" ==> (ok <==> 10 <= |Text.DigitsOf(key)| <= 11)
    ensures keyType == "cpf" ==> (ok <==> |Text.DigitsOf(key)| == 11)
    ensures keyType == "cnpj" ==> (ok <==> |Text.DigitsOf(key)| == 14)
    ensures keyType == "random" ==> (ok <==> |key| == 32)
    ensures keyType !in {"email", "phone", "cpf", "cnpj", "random"} ==> !ok
  {
    EmailShapeIsEmail(key);
    if keyType == "email" then IsEmail(key)
    else if keyType == "phone" then 10 <= |Text.DigitsOf(key)| <= 11
    else if keyType == "cpf" then |Text.DigitsOf(key)| == 11
    else if keyType == "cnpj" then |Text.DigitsOf(key)| == 14
    else if keyType == "random" then |key| == 32
    else false
  }

  /** The key types whose formatted form is the key's digits. */
  predicate DigitKeyType(keyType: string) {
    keyType == "phone" || keyType == "cpf" || keyType == "cnpj"
  }

  /** `formatPixKey`: lower-cases e-mails, strips phone and document keys to digits, leaves the rest alone. */
  function FormatPixKey(key: string, keyType: string): (r: string)
    ensures keyType == "email" ==> |r| == |key| && forall i :: 0 <= i < |key| ==> r[i] == Text.LowerAsciiChar(key[i])
    ensures DigitKeyType(keyType) ==> Text.AllDigits(r) && r == Text.DigitsOf(key)
    ensures keyType != "email" && !DigitKeyType(keyType) ==> r == key
  {
    if keyType == "email" then Text.LowerAscii(key)
    else if DigitKeyType(keyType) then Text.DigitsOf(key)
    else key
  }

  /** Formatting a formatted key changes nothing, whatever the type. */
  lemma FormatPixKeyIdempotent(key: string, keyType: string)
    ensures FormatPixKey(FormatPixKey(key, keyType), keyType) == FormatPixKey(key, keyType)
  {
    if keyType == "email" {
      Text.LowerAsciiIdempotent(key);
    } else if DigitKeyType(keyType) {
      Text.DigitsOfIdempotent(key);
    }
  }

  /** Lower-casing keeps every character's membership in `[^\s@]` and `.`. */
  lemma LowerKeepsEmail(key: string)
    ensures IsEmail(Text.LowerAscii(key)) <==> IsEmail(key)
  {
    var l := Text.LowerAscii(key);
    assert forall j :: 0 <= j < |key| ==>
      (l[j] == '@' <==> key[j] == '@') && (l[j] == '.' <==> key[j] == '.') && (Text.IsJsSpace(l[j]) <==> Text.IsJsSpace(key[j]));
    if IsEmail(key) {
      var i :| 0 < i < |key| && key[i] == '@' && EmailAt(key, i);
      assert EmailAt(l, i);
    }
    if IsEmail(l) {
      var i :| 0 < i < |l| && l[i] == '@' && EmailAt(l, i);
      assert EmailAt(key, i);
    }
  }

  /** Formatting a key never changes whether it is valid for its type. */
  lemma FormatPixKeyKeepsValidity(key: string, keyType: string)
    ensures ValidatePixKey(FormatPixKey(key, keyType), keyType) == ValidatePixKey(key, keyType)
  {
    if keyType == "email" {
      LowerKeepsEmail(key);
      EmailShapeIsEmail(key);
      EmailShapeIsEmail(Text.LowerAscii(key));
    } else if DigitKeyType(keyType) {
      Text.DigitsOfIdempotent(key);
    }
  }

  // ---------------------------------------------------------------- codes and webhooks

  const PixCodePrefix: string := "00020126"

  /** `validatePixCode`: a present, non-empty code that starts with the EMV header and is longer than 100 characters. */
  function ValidatePixCode(pixCode: Option<string>): (ok: bool)
    ensures ok <==> pixCode.Some? && |pixCode.value| > 100 && pixCode.value[..8] == PixCodePrefix
  {
    pixCode.Some? && pixCode.value != "" && |pixCode.value| >= 8 && pixCode.value[..8] == PixCodePrefix && |pixCode.value| > 100
  }

  /** A code passes exactly when it is the EMV header followed by more than 92 characters. */
  lemma PixCodeShape(body: string, code: string)
    ensures ValidatePixCode(Some(PixCodePrefix + body)) <==> |body| > 92
    ensures ValidatePixCode(Some(code)) ==> code == PixCodePrefix + code[8..] && |code[8..]| > 92
  {
    assert (PixCodePrefix + body)[..8] == PixCodePrefix;
  }

  /** The fields `processPixWebhook` passes through; amount and date parsing are not modelled. */
  datatype PixWebhook = PixWebhook(transactionId: JsValue, status: JsValue, payerName: JsValue, payerDocument: JsValue)

  /** `processPixWebhook`: 'approved' becomes 'paid', any other status passes through; a null body throws. */
  function ProcessPixWebhook(data: JsValue): (r: Result<PixWebhook>)
    ensures r.Err? <==> Nullish(data)
    ensures r.Ok? ==> r.value.transactionId == Get(data, "transaction_id")
    ensures r.Ok? && Get(data, "status") == JStr("approved") ==> r.value.status == JStr("paid")
    ensures r.Ok? && Get(data, "status") != JStr("approved") ==> r.value.status == Get(data, "status")
  {
    if Nullish(data) then Err("Cannot destructure webhook data")
    else
      var status := Get(data, "status");
      Ok(PixWebhook(Get(data, "transaction_id"), if status == JStr("approved") then JStr("paid") else status,
                    Get(data, "payer_name"), Get(data, "payer_document")))
  }

  /** The webhook's status never reads 'approved' after processing, and 'paid' comes only from 'approved' or 'paid'. */
  lemma PixWebhookStatus(data: JsValue)
    requires !Nullish(data)
    ensures var s := ProcessPixWebhook(data).value.status;
      && s != JStr("approved")
      && (s == JStr("paid") <==> Get(data, "status") == JStr("approved") || Get(data, "status") == JStr("paid"))
  {
  }

  datatype PixStatus = PixStatus(transactionId: string, status: string, paidAt: Option<int>, amount: Option<real>)

  /** `checkPixStatus`: the simulated lookup always answers pending, unpaid. */
  function CheckPixStatus(transactionId: string): (r: PixStatus)
    ensures r.transactionId == transactionId && r.status == "pending" && r.paidAt.None? && r.amount.None?
  {
    PixStatus(transactionId, "pending", None, None)
  }

  /**
    `calculatePixFee`: PIX carries no fee, whatever the amount, so adding it leaves the
    amount owed unchanged (PaymentService.PixChargeIncludesFee relates it to the value
    actually charged).
   */
  function CalculatePixFee(amount: real): (fee: real)
    ensures fee == 0.0
  {
    0.0
  }
}
