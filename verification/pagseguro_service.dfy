/**
  The local logic of `services/pagseguroService.js`: the request payload pieces built
  from customer data, the normalisation of an order's status when it is polled, the
  fields read from a webhook, and the installment table. The HTTP calls themselves
  are left out; their responses are inputs.
 */
module PagSeguro {
  import opened Wrappers
  import opened Json
  import Text

  // ---------------------------------------------------------------- customer payload

  /** One entry of `customer.phones`. */
  datatype Phone = Phone(country: string, area: string, number: string, kind: string)

  /**
    `customer.phone ? [{…}] : []`: a truthy phone gives one mobile entry whose area is
    the first two digits and whose number is the remaining digits.
   */
  function Phones(phone: Option<string>): (r: seq<Phone>)
    ensures |r| == (if phone.Some? && phone.value != "" then 1 else 0)
    ensures |r| == 1 ==>
      var digits := Text.DigitsOf(phone.value);
      && r[0].area + r[0].number == digits
      && |r[0].area| == (if |digits| < 2 then |digits| else 2)
      && r[0].country == "55" && r[0].kind == "MOBILE"
  {
    if phone.Some? && phone.value != "" then
      var digits := Text.DigitsOf(phone.value);
      var cut := if |digits| < 2 then |digits| else 2;
      [Phone("55", digits[..cut], digits[cut..], "MOBILE")]
    else []
  }

  /** `customer.cpfCnpj?.replace(/\D/g, '')`: the tax id reduced to its digits, absent when absent. */
  function TaxId(cpfCnpj: Option<string>): (r: Option<string>)
    ensures r.Some? <==> cpfCnpj.Some?
    ensures r.Some? ==> Text.AllDigits(r.value) && r.value == Text.DigitsOf(cpfCnpj.value)
  {
    if cpfCnpj.Some? then Some(Text.DigitsOf(cpfCnpj.value)) else None
  }

  /** A refund body carries an amount only when the value is truthy; otherwise the whole charge is refunded. */
  function RefundAmount(value: Option<int>): (r: Option<int>)
    ensures r.Some? <==> value.Some? && value.value != 0
    ensures r.Some? ==> r == value
  {
    if value.Some? && value.value != 0 then value else None
  }

  // ---------------------------------------------------------------- polling an order

  /** The status string of a JSON value; a non-string compares equal to no status literal. */
  function StatusText(v: JsValue): string {
    if v.JStr? then v.s else ""
  }

  /** `checkPaymentStatus`: the order status reduced to CONFIRMED, FAILED or PENDING. */
  function NormaliseStatus(orderStatus: string): (s: string)
    ensures s == "CONFIRMED" <==> orderStatus == "PAID"
    ensures s == "FAILED" <==> orderStatus == "DECLINED" || orderStatus == "CANCELED"
    ensures s == "CONFIRMED" || s == "FAILED" || s == "PENDING"
  {
    if orderStatus == "PAID" then "CONFIRMED"
    else if orderStatus == "DECLINED" || orderStatus == "CANCELED" then "FAILED"
    else "PENDING"
  }

  /** `x?.[0]` on an array: its first element, `undefined` for an empty array or a non-array. */
  function First(v: JsValue): (r: JsValue)
    ensures v.JArr? && v.items != [] ==> r == v.items[0]
    ensures !(v.JArr? && v.items != []) ==> r == JUndefined
  {
    if v.JArr? && v.items != [] then v.items[0] else JUndefined
  }

  /** `x / 100 || 0` on an amount in cents: reais, with anything that is not a number reading 0. */
  function Reais(v: JsValue): (r: real)
    ensures v.JNum? ==> r * 100.0 == v.n
    ensures !v.JNum? ==> r == 0.0
  {
    if v.JNum? then v.n / 100.0 else 0.0
  }

  datatype StatusReport = StatusReport(id: JsValue, status: string, value: real, paymentMethod: JsValue, paidAt: JsValue, referenceId: JsValue)

  /** The report built from a fetched order: the normalised status and the first charge's amount, method and payment time. */
  function CheckPaymentStatus(order: JsValue): (r: StatusReport)
    ensures r.status == NormaliseStatus(StatusText(Get(order, "status")))
    ensures var charge := First(Get(order, "charges"));
      && r.value == Reais(Get(Get(charge, "amount"), "value"))
      && r.paymentMethod == Get(Get(charge, "payment_method"), "type")
      && r.paidAt == Get(charge, "paid_at")
    ensures r.id == Get(order, "id") && r.referenceId == Get(order, "reference_id")
  {
    var charge := First(Get(order, "charges"));
    StatusReport(
      Get(order, "id"),
      NormaliseStatus(StatusText(Get(order, "status"))),
      Reais(Get(Get(charge, "amount"), "value")),
      Get(Get(charge, "payment_method"), "type"),
      Get(charge, "paid_at"),
      Get(order, "reference_id"))
  }

  /** Polling never reports FAILED's neighbours DECLINED or CANCELED: only the three normalised statuses come out. */
  lemma PolledStatusIsNormalised(order: JsValue)
    ensures var s := CheckPaymentStatus(order).status;
      s != "DECLINED" && s != "CANCELED" && s != "PAID"
      && (s == "FAILED" <==> Get(order, "status") == JStr("DECLINED") || Get(order, "status") == JStr("CANCELED"))
  {
  }

  // ---------------------------------------------------------------- webhooks

  datatype WebhookFields = WebhookFields(orderId: JsValue, referenceId: JsValue, status: JsValue, paymentMethod: JsValue, value: real, paidAt: JsValue)

  /**
    `handleWebhook`: the order id and reference from the body, everything else from
    `charges[0]`. Destructuring a null or undefined body throws.
   */
  function HandleWebhook(data: JsValue): (r: Result<WebhookFields>)
    ensures r.Err? <==> Nullish(data)
    ensures r.Ok? ==>
      var charge := First(Get(data, "charges"));
      && r.value.orderId == Get(data, "id") && r.value.referenceId == Get(data, "reference_id")
      && r.value.status == Get(charge, "status") && r.value.paidAt == Get(charge, "paid_at")
      && r.value.paymentMethod == Get(Get(charge, "payment_method"), "type")
      && r.value.value == Reais(Get(Get(charge, "amount"), "value"))
  {
    if Nullish(data) then Err("Cannot destructure webhook data")
    else
      var charge := First(Get(data, "charges"));
      Ok(WebhookFields(
        Get(data, "id"), Get(data, "reference_id"),
        Get(charge, "status"), Get(Get(charge, "payment_method"), "type"),
        Reais(Get(Get(charge, "amount"), "value")), Get(charge, "paid_at")))
  }

  /** Only the first charge counts: charges after it never change what the webhook reports. */
  lemma WebhookIgnoresLaterCharges(id: JsValue, c: JsValue, rest1: seq<JsValue>, rest2: seq<JsValue>)
    ensures HandleWebhook(JObj([("id", id), ("charges", JArr([c] + rest1))]))
         == HandleWebhook(JObj([("id", id), ("charges", JArr([c] + rest2))]))
  {
    var d1 := JObj([("id", id), ("charges", JArr([c] + rest1))]);
    var d2 := JObj([("id", id), ("charges", JArr([c] + rest2))]);
    var front := JObj([("id", id)]);
    assert d1.fields[..1] == [("id", id)] == d2.fields[..1];
    assert Get(front, "id") == id;
    assert Get(d1, "id") == Get(front, "id");
    assert Get(d2, "id") == Get(front, "id");
    assert Get(front, "reference_id") == Get(JObj([]), "reference_id");
    assert Get(d1, "reference_id") == Get(front, "reference_id");
    assert Get(d2, "reference_id") == Get(front, "reference_id");
    assert First(Get(d1, "charges")) == c == First(Get(d2, "charges"));
  }

  // ---------------------------------------------------------------- installments

  /** R$ 5,00, in cents: the smallest installment offered. */
  const MinInstallmentValue: real := 500.0

  datatype Installment = Installment(quantity: int, value: real, totalValue: real, interestFree: bool)

  /** The entry for `i` installments of `amount` cents: values in reais, interest-free up to three. */
  function InstallmentOf(amount: real, i: int): Installment
    requires i >= 1
  {
    Installment(i, amount / (i as real) / 100.0, amount / 100.0, i <= 3)
  }

  /** Whether `i` installments are offered: each must be worth at least the minimum. */
  predicate Offered(amount: real, i: int)
    requires i >= 1
  {
    amount / (i as real) >= MinInstallmentValue
  }

  /** Fewer installments are worth more each, so an offered count implies every smaller one is offered. */
  lemma OfferedDownward(amount: real, j: int, i: int)
    requires 1 <= j <= i && Offered(amount, i)
    ensures Offered(amount, j)
  {
    var ri := i as real;
    var rj := j as real;
    var q := amount / ri;
    assert amount == q * ri;
    assert q * ri >= MinInstallmentValue * ri;
    assert MinInstallmentValue * ri >= MinInstallmentValue * rj;
    assert amount >= MinInstallmentValue * rj;
    DivideBound(amount, rj, MinInstallmentValue);
  }

  lemma DivideBound(a: real, d: real, m: real)
    requires d > 0.0 && a >= m * d
    ensures a / d >= m
  {
    assert a / d - m == (a - m * d) / d;
  }

  /**
    `calculateInstallments(amount, maxInstallments)`: the entries for 1, 2, … in
    ascending order, and exactly those counts up to the maximum that are offered.
    Because offers only shrink as the count grows, they form a prefix.
   */
  method CalculateInstallments(amount: real, maxInstallments: int) returns (r: seq<Installment>)
    ensures |r| <= (if maxInstallments > 0 then maxInstallments else 0)
    ensures forall k :: 0 <= k < |r| ==> r[k] == InstallmentOf(amount, k + 1)
    ensures forall i :: 1 <= i <= maxInstallments ==> (i <= |r| <==> Offered(amount, i))
  {
    r := [];
    var i := 1;
    while i <= maxInstallments
      invariant 1 <= i <= (if maxInstallments >= 1 then maxInstallments + 1 else 1)
      invariant |r| < i
      invariant forall k :: 0 <= k < |r| ==> r[k] == InstallmentOf(amount, k + 1)
      invariant forall j :: 1 <= j < i ==> (j <= |r| <==> Offered(amount, j))
    {
      if amount / (i as real) >= MinInstallmentValue {
        if i > 1 {
          OfferedDownward(amount, i - 1, i);
        }
        r := r + [InstallmentOf(amount, i)];
      }
      i := i + 1;
    }
  }
}
