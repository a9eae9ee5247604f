/**
  Pagination arithmetic, time offsets, Brazilian document and phone formatting and
  the response envelopes of `utils/helpers.js`.
 */
module Helpers {
  import opened Wrappers
  import opened Text
  import opened Json

  // ---------------------------------------------------------------- pagination

  /**
    `parseInt(x) || d`: `x` is the result of `parseInt` (`None` for NaN); NaN and 0
    fall back to the default.
   */
  function OrDefault(x: Option<int>, d: int): int {
    if x.Some? && x.value != 0 then x.value else d
  }

  /** `Math.max(1, parseInt(page) || 1)`. */
  function EffectivePage(page: Option<int>): (p: int)
    ensures p >= 1
    ensures p == if page.Some? && page.value >= 1 then page.value else 1
  {
    var v := OrDefault(page, 1);
    if v < 1 then 1 else v
  }

  /** `Math.min(100, Math.max(1, parseInt(limit) || 20))`. */
  function EffectiveLimit(limit: Option<int>): (l: int)
    ensures 1 <= l <= 100
    ensures limit.Some? && 1 <= limit.value <= 100 ==> l == limit.value
    ensures limit.None? || limit.value == 0 ==> l == 20
    ensures limit.Some? && limit.value < 0 ==> l == 1
    ensures limit.Some? && limit.value > 100 ==> l == 100
  {
    var v := OrDefault(limit, 20);
    var lo := if v < 1 then 1 else v;
    if lo > 100 then 100 else lo
  }

  /** `calculateOffset`: the number of items on the pages before the current one. */
  function CalculateOffset(page: Option<int>, limit: Option<int>): (offset: int)
    ensures offset >= 0
    ensures offset % EffectiveLimit(limit) == 0
    ensures offset / EffectiveLimit(limit) == EffectivePage(page) - 1
  {
    var p := EffectivePage(page);
    var l := EffectiveLimit(limit);
    MulDivExact(p - 1, l);
    (p - 1) * l
  }

  lemma MulDivExact(k: nat, l: int)
    requires l >= 1
    ensures (k * l) % l == 0 && (k * l) / l == k
  {
    var x := k * l;
    var d, m := x / l, x % l;
    assert (k - d) * l == m;
    if k - d >= 1 {
      MonotoneMul(1, k - d, l);
    } else if k - d <= -1 {
      MonotoneMul(k - d, -1, l);
    }
  }

  /** `Math.ceil(total / l)` for a non-negative item count. */
  function CeilDiv(total: nat, l: int): (pages: nat)
    requires l >= 1
    ensures (pages - 1) * l < total <= pages * l || (total == 0 && pages == 0)
  {
    (total + l - 1) / l
  }

  datatype PaginationMeta = PaginationMeta(total: nat, page: int, limit: int, totalPages: nat, hasNext: bool, hasPrev: bool)

  /** `createPaginationMeta`. */
  function CreatePaginationMeta(total: nat, page: Option<int>, limit: Option<int>): (m: PaginationMeta)
    ensures m.page == EffectivePage(page) && m.limit == EffectiveLimit(limit) && m.total == total
    ensures m.totalPages == CeilDiv(total, m.limit)
    ensures (m.totalPages - 1) * m.limit < total <= m.totalPages * m.limit || (total == 0 && m.totalPages == 0)
    ensures m.hasNext <==> m.page < m.totalPages
    ensures m.hasPrev <==> m.page > 1
  {
    var p := EffectivePage(page);
    var l := EffectiveLimit(limit);
    var pages := CeilDiv(total, l);
    PaginationMeta(total, p, l, pages, p < pages, p > 1)
  }

  /** There is a next page exactly when items remain after the current page. */
  lemma HasNextIffItemsRemain(total: nat, page: Option<int>, limit: Option<int>)
    ensures CreatePaginationMeta(total, page, limit).hasNext
      <==> CalculateOffset(page, limit) + EffectiveLimit(limit) < total
  {
    var p := EffectivePage(page);
    var l := EffectiveLimit(limit);
    var pages := CeilDiv(total, l);
    assert CalculateOffset(page, limit) + l == p * l;
    if p < pages {
      MonotoneMul(p, pages - 1, l);
    } else {
      MonotoneMul(pages, p, l);
    }
  }

  lemma MonotoneMul(a: int, b: int, l: int)
    requires a <= b && l >= 1
    ensures a * l <= b * l
  {
  }

  // ---------------------------------------------------------------- time

  const MillisPerMinute: int := 60000

  /** `addMinutes`: an instant shifted by whole minutes. */
  function AddMinutes(t: int, minutes: int): (r: int)
    ensures r - t == minutes * MillisPerMinute
  {
    t + minutes * MillisPerMinute
  }

  /** Shifting twice is shifting by the sum. */
  lemma AddMinutesComposes(t: int, a: int, b: int)
    ensures AddMinutes(AddMinutes(t, a), b) == AddMinutes(t, a + b)
  {
  }

  /** Shifting preserves order in both directions. */
  lemma AddMinutesMonotone(t: int, u: int, m: int)
    ensures t < u <==> AddMinutes(t, m) < AddMinutes(u, m)
  {
  }

  // ---------------------------------------------------------------- formatting

  /** A string of non-digit separators contributes nothing to `DigitsOf`. */
  lemma DigitsOfSeparators(s: string)
    requires forall i :: 0 <= i < |s| ==> !IsDigit(s[i])
    ensures DigitsOf(s) == ""
  {
    if s != [] {
      DigitsOfSeparators(s[1..]);
    }
  }

  /**
    `formatPhone`: a phone with 10 or 11 digits is laid out as `(dd) dddd-dddd` or
    `(dd) ddddd-dddd`, keeping its digits in order; any other input is returned as is.
   */
  function FormatPhone(phone: string): (r: string)
    ensures DigitsOf(r) == DigitsOf(phone)
    ensures |DigitsOf(phone)| == 11 ==> |r| == 15 && r[0] == '(' && r[3..5] == ") " && r[10] == '-'
    ensures |DigitsOf(phone)| == 10 ==> |r| == 14 && r[0] == '(' && r[3..5] == ") " && r[9] == '-'
    ensures |DigitsOf(phone)| != 10 && |DigitsOf(phone)| != 11 ==> r == phone
  {
    var c := DigitsOf(phone);
    if |c| == 11 then PhoneLayoutDigits(c, 7); "(" + c[..2] + ") " + c[2..7] + "-" + c[7..]
    else if |c| == 10 then PhoneLayoutDigits(c, 6); "(" + c[..2] + ") " + c[2..6] + "-" + c[6..]
    else phone
  }

  predicate NoDigits(s: string) {
    forall i :: 0 <= i < |s| ==> !IsDigit(s[i])
  }

  /** A separator followed by a run of digits contributes exactly those digits. */
  lemma Chunk(sep: string, a: string, rest: string)
    requires NoDigits(sep) && AllDigits(a)
    ensures DigitsOf(sep + a + rest) == a + DigitsOf(rest)
  {
    DigitsOfSeparators(sep);
    DigitsOfDigits(a);
    DigitsOfAppend(sep, a);
    var head := sep + a;
    assert DigitsOf(head) == a;
    DigitsOfAppend(head, rest);
  }

  lemma SliceDigits(c: string, i: nat, j: nat)
    requires AllDigits(c) && i <= j <= |c|
    ensures AllDigits(c[i..j])
  {
  }

  /** The digits of a phone laid out as `(aa) bbbb-cccc` are the digits laid out. */
  lemma PhoneLayoutDigits(c: string, k: nat)
    requires AllDigits(c) && 2 <= k <= |c|
    ensures DigitsOf("(" + c[..2] + ") " + c[2..k] + "-" + c[k..]) == c
  {
    SliceDigits(c, 0, 2);
    SliceDigits(c, 2, k);
    SliceDigits(c, k, |c|);
    var t2 := "-" + c[k..] + "";
    var t1 := ") " + c[2..k] + t2;
    Chunk("-", c[k..], "");
    Chunk(") ", c[2..k], t2);
    Chunk("(", c[..2], t1);
    assert "(" + c[..2] + ") " + c[2..k] + "-" + c[k..] == "(" + c[..2] + t1;
    assert c == c[..2] + c[2..k] + c[k..];
  }

  /** Formatting a formatted phone changes nothing. */
  lemma FormatPhoneIdempotent(phone: string)
    ensures FormatPhone(FormatPhone(phone)) == FormatPhone(phone)
  {
  }

  /** `formatCPF`: eleven digits are laid out as `ddd.ddd.ddd-dd`, in order; any other input is returned as is. */
  function FormatCpf(cpf: string): (r: string)
    ensures DigitsOf(r) == DigitsOf(cpf)
    ensures |DigitsOf(cpf)| == 11 ==> |r| == 14 && r[3] == '.' && r[7] == '.' && r[11] == '-'
    ensures |DigitsOf(cpf)| != 11 ==> r == cpf
  {
    var c := DigitsOf(cpf);
    if |c| == 11 then CpfLayoutDigits(c); c[..3] + "." + c[3..6] + "." + c[6..9] + "-" + c[9..] else cpf
  }

  /** The digits of a CPF laid out as `ddd.ddd.ddd-dd` are the digits laid out. */
  lemma CpfLayoutDigits(c: string)
    requires AllDigits(c) && |c| == 11
    ensures DigitsOf(c[..3] + "." + c[3..6] + "." + c[6..9] + "-" + c[9..]) == c
  {
    var (a, b, d, e) := (c[..3], c[3..6], c[6..9], c[9..]);
    SliceDigits(c, 0, 3);
    SliceDigits(c, 3, 6);
    SliceDigits(c, 6, 9);
    SliceDigits(c, 9, 11);
    var t3 := "-" + e + "";
    var t2 := "." + d + t3;
    var t1 := "." + b + t2;
    Chunk("-", e, "");
    Chunk(".", d, t3);
    Chunk(".", b, t2);
    Chunk("", a, t1);
    assert a + "." + b + "." + d + "-" + e == "" + a + t1;
    assert c == a + b + d + e;
  }

  lemma FormatCpfIdempotent(cpf: string)
    ensures FormatCpf(FormatCpf(cpf)) == FormatCpf(cpf)
  {
  }

  /** `formatCNPJ`: fourteen digits are laid out as `dd.ddd.ddd/dddd-dd`, in order; any other input is returned as is. */
  function FormatCnpj(cnpj: string): (r: string)
    ensures DigitsOf(r) == DigitsOf(cnpj)
    ensures |DigitsOf(cnpj)| == 14 ==> |r| == 18 && r[2] == '.' && r[6] == '.' && r[10] == '/' && r[15] == '-'
    ensures |DigitsOf(cnpj)| != 14 ==> r == cnpj
  {
    var c := DigitsOf(cnpj);
    if |c| == 14 then CnpjLayoutDigits(c); c[..2] + "." + c[2..5] + "." + c[5..8] + "/" + c[8..12] + "-" + c[12..] else cnpj
  }

  /** The digits of a CNPJ laid out as `dd.ddd.ddd/dddd-dd` are the digits laid out. */
  lemma CnpjLayoutDigits(c: string)
    requires AllDigits(c) && |c| == 14
    ensures DigitsOf(c[..2] + "." + c[2..5] + "." + c[5..8] + "/" + c[8..12] + "-" + c[12..]) == c
  {
    var (a, b, d, e, f) := (c[..2], c[2..5], c[5..8], c[8..12], c[12..]);
    SliceDigits(c, 0, 2);
    SliceDigits(c, 2, 5);
    SliceDigits(c, 5, 8);
    SliceDigits(c, 8, 12);
    SliceDigits(c, 12, 14);
    var t4 := "-" + f + "";
    var t3 := "/" + e + t4;
    var t2 := "." + d + t3;
    var t1 := "." + b + t2;
    Chunk("-", f, "");
    Chunk("/", e, t4);
    Chunk(".", d, t3);
    Chunk(".", b, t2);
    Chunk("", a, t1);
    assert a + "." + b + "." + d + "/" + e + "-" + f == "" + a + t1;
    assert c == a + b + d + e + f;
  }

  lemma FormatCnpjIdempotent(cnpj: string)
    ensures FormatCnpj(FormatCnpj(cnpj)) == FormatCnpj(cnpj)
  {
  }

  // ---------------------------------------------------------------- responses

  datatype Response = Response(ok: bool, data: JsValue, error: string, details: Option<JsValue>)

  /** `{ ok: true, data }`. */
  function SuccessResponse(data: JsValue): (r: Response)
    ensures r.ok && r.data == data && r.details.None?
  {
    Response(true, data, "", None)
  }

  /** `{ ok: false, error }`, with `details` only when they are truthy. */
  function ErrorResponse(error: string, details: JsValue): (r: Response)
    ensures !r.ok && r.error == error
    ensures r.details.Some? <==> Truthy(details)
    ensures r.details.Some? ==> r.details.value == details
  {
    Response(false, JUndefined, error, if Truthy(details) then Some(details) else None)
  }

  /** `ok` tells the two envelopes apart: no success response is ever an error response. */
  lemma OkSeparatesResponses(data: JsValue, error: string, details: JsValue)
    ensures SuccessResponse(data).ok && !ErrorResponse(error, details).ok
    ensures SuccessResponse(data) != ErrorResponse(error, details)
  {
  }
}
