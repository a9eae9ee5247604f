/**
  `middleware/validate.js`: the schema-driven request check and the Brazilian
  taxpayer-number checks it uses (CPF, 11 digits, and CNPJ, 14 digits, each ending in
  two mod-11 check digits).
 */
module Validate {
  import opened Wrappers
  import opened Json
  import Text
  import PixService

  // ---------------------------------------------------------------- check digits

  /** The value of the `i`-th digit. */
  function Digit(s: string, i: nat): nat
    requires i < |s| && Text.AllDigits(s)
  {
    Text.DigitValue(s[i])
  }

  /** `/^(\d)\1{n}$/` on a string of digits: every digit equals the first. */
  predicate AllSame(s: string) {
    forall i :: 0 <= i < |s| ==> s[i] == s[0]
  }

  /** Σ_{i<n} digit(i)·w(i): the weighted digit sum, with the weights given per position. */
  function WeightedSum(s: string, weights: seq<int>, n: nat): int
    requires n <= |s| && n <= |weights| && Text.AllDigits(s)
  {
    if n == 0 then 0 else WeightedSum(s, weights, n - 1) + Digit(s, n - 1) * weights[n - 1]
  }

  /** The CPF weights: 10, 9, …, 2 for the first check digit and 11, 10, …, 2 for the second. */
  function CpfWeights(top: int, n: nat): (w: seq<int>)
    ensures |w| == n && forall i :: 0 <= i < n ==> w[i] == top - i
  {
    seq(n, i => top - i)
  }

  /** A CPF check digit: 11 minus the sum modulo 11, with 10 and 11 becoming 0. */
  function CpfCheckDigit(sum: int): (d: int)
    ensures 0 <= d <= 9
  {
    var d := 11 - sum % 11;
    if d > 9 then 0 else d
  }

  /** The CPF rule: 11 digits, not all equal, ending in the two check digits of what precedes them. */
  predicate CpfValid(cpf: string)
    requires Text.AllDigits(cpf)
  {
    && |cpf| == 11 && !AllSame(cpf)
    && Digit(cpf, 9) == CpfCheckDigit(WeightedSum(cpf, CpfWeights(10, 9), 9))
    && Digit(cpf, 10) == CpfCheckDigit(WeightedSum(cpf, CpfWeights(11, 10), 10))
  }

  /** `isValidCPF`, with its two summing loops. */
  method IsValidCpf(cpf: string) returns (ok: bool)
    requires Text.AllDigits(cpf)
    ensures ok <==> CpfValid(cpf)
  {
    if |cpf| != 11 { return false; }
    if AllSameDigits(cpf) { return false; }
    var sum := 0;
    var i := 0;
    while i < 9
      invariant 0 <= i <= 9
      invariant sum == WeightedSum(cpf, CpfWeights(10, 9), i)
    {
      sum := sum + Digit(cpf, i) * (10 - i);
      i := i + 1;
    }
    var digit1 := 11 - sum % 11;
    if digit1 > 9 { digit1 := 0; }
    sum := 0;
    i := 0;
    while i < 10
      invariant 0 <= i <= 10
      invariant sum == WeightedSum(cpf, CpfWeights(11, 10), i)
    {
      sum := sum + Digit(cpf, i) * (11 - i);
      i := i + 1;
    }
    var digit2 := 11 - sum % 11;
    if digit2 > 9 { digit2 := 0; }
    return Digit(cpf, 9) == digit1 && Digit(cpf, 10) == digit2;
  }

  /** The back-reference pattern, decided by comparing each digit with the first. */
  function AllSameDigits(s: string): (r: bool)
    ensures r <==> AllSame(s)
  {
    forall i :: 0 <= i < |s| ==> s[i] == s[0]
  }

  /** The weighted sum reads only the first `n` digits. */
  lemma {:induction false} WeightedSumPrefix(s: string, t: string, weights: seq<int>, n: nat)
    requires n <= |s| && n <= |t| && n <= |weights| && Text.AllDigits(s) && Text.AllDigits(t)
    requires s[..n] == t[..n]
    ensures WeightedSum(s, weights, n) == WeightedSum(t, weights, n)
  {
    if n > 0 {
      assert s[n - 1] == s[..n][n - 1] == t[..n][n - 1] == t[n - 1];
      assert s[..n - 1] == s[..n][..n - 1];
      assert t[..n - 1] == t[..n][..n - 1];
      WeightedSumPrefix(s, t, weights, n - 1);
    }
  }

  /** Two digit strings that agree on their first `n` characters and the next one agree on `n + 1`. */
  lemma ExtendPrefix(s: string, t: string, n: nat)
    requires n < |s| && n < |t| && s[..n] == t[..n] && s[n] == t[n]
    ensures s[..n + 1] == t[..n + 1]
  {
    assert s[..n + 1] == s[..n] + [s[n]];
    assert t[..n + 1] == t[..n] + [t[n]];
  }

  /** The check digits are determined by the nine base digits: two valid CPFs with the same base are equal. */
  lemma CpfCheckDigitsDetermined(a: string, b: string)
    requires Text.AllDigits(a) && Text.AllDigits(b) && CpfValid(a) && CpfValid(b)
    requires a[..9] == b[..9]
    ensures a == b
  {
    WeightedSumPrefix(a, b, CpfWeights(10, 9), 9);
    assert Digit(a, 9) == Digit(b, 9);
    assert a[9] == b[9];
    ExtendPrefix(a, b, 9);
    WeightedSumPrefix(a, b, CpfWeights(11, 10), 10);
    assert a[10] == b[10];
    ExtendPrefix(a, b, 10);
    assert a == a[..11] && b == b[..11];
  }

  /** The CNPJ weights: 5, 4, 3, 2, 9, …, 2 over twelve digits, then 6 in front for thirteen. */
  const CnpjWeights1: seq<int> := [5, 4, 3, 2, 9, 8, 7, 6, 5, 4, 3, 2]
  const CnpjWeights2: seq<int> := [6] + CnpjWeights1

  /** A CNPJ check digit: 0 when the sum modulo 11 is below 2, else 11 minus it. */
  function CnpjCheckDigit(sum: int): (d: int)
    ensures 0 <= d <= 9
  {
    if sum % 11 < 2 then 0 else 11 - sum % 11
  }

  /** The CNPJ rule: 14 digits, not all equal, ending in the two check digits of what precedes them. */
  predicate CnpjValid(cnpj: string)
    requires Text.AllDigits(cnpj)
  {
    && |cnpj| == 14 && !AllSame(cnpj)
    && Digit(cnpj, 12) == CnpjCheckDigit(WeightedSum(cnpj, CnpjWeights1, 12))
    && Digit(cnpj, 13) == CnpjCheckDigit(WeightedSum(cnpj, CnpjWeights2, 13))
  }

  /** The weight the loop's `pos` holds at step `k`: counting down from `size − 7`, wrapping from 2 to 9. */
  function LoopWeight(size: nat, k: nat): int {
    var p := size - 7 - k;
    if p >= 2 then p else p + 8
  }

  /** The wrapping countdown produces exactly the tabulated weights. */
  lemma LoopWeightsAreTable(k: nat)
    ensures k < 12 ==> LoopWeight(12, k) == CnpjWeights1[k]
    ensures k < 13 ==> LoopWeight(13, k) == CnpjWeights2[k]
  {
    if k < 13 {
      assert k == 0 || k == 1 || k == 2 || k == 3 || k == 4 || k == 5 || k == 6 || k == 7 || k == 8
          || k == 9 || k == 10 || k == 11 || k == 12;
    }
  }

  /** One check digit's loop: `for (i = size; i >= 1; i--) sum += digit(size − i) · pos--`, with the wrap. */
  method CnpjSum(cnpj: string, size: nat) returns (sum: int)
    requires Text.AllDigits(cnpj) && (size == 12 || size == 13) && size <= |cnpj|
    ensures sum == WeightedSum(cnpj, if size == 12 then CnpjWeights1 else CnpjWeights2, size)
  {
    var weights := if size == 12 then CnpjWeights1 else CnpjWeights2;
    sum := 0;
    var pos := size as int - 7;
    var i := size;
    while i >= 1
      invariant 0 <= i <= size
      invariant sum == WeightedSum(cnpj, weights, size - i)
      invariant i >= 1 ==> pos == LoopWeight(size, size - i)
    {
      LoopWeightsAreTable(size - i);
      sum := sum + Digit(cnpj, size - i) * pos;
      pos := pos - 1;
      if pos < 2 { pos := 9; }
      i := i - 1;
    }
  }

  /** `isValidCNPJ`. */
  method IsValidCnpj(cnpj: string) returns (ok: bool)
    requires Text.AllDigits(cnpj)
    ensures ok <==> CnpjValid(cnpj)
  {
    if |cnpj| != 14 { return false; }
    if AllSameDigits(cnpj) { return false; }
    var sum := CnpjSum(cnpj, 12);
    var result := if sum % 11 < 2 then 0 else 11 - sum % 11;
    if result != Digit(cnpj, 12) { return false; }
    sum := CnpjSum(cnpj, 13);
    result := if sum % 11 < 2 then 0 else 11 - sum % 11;
    return result == Digit(cnpj, 13);
  }

  /** The CNPJ check digits are determined by the twelve base digits. */
  lemma CnpjCheckDigitsDetermined(a: string, b: string)
    requires Text.AllDigits(a) && Text.AllDigits(b) && CnpjValid(a) && CnpjValid(b)
    requires a[..12] == b[..12]
    ensures a == b
  {
    WeightedSumPrefix(a, b, CnpjWeights1, 12);
    assert a[12] == b[12];
    ExtendPrefix(a, b, 12);
    WeightedSumPrefix(a, b, CnpjWeights2, 13);
    assert a[13] == b[13];
    ExtendPrefix(a, b, 13);
    assert a == a[..14] && b == b[..14];
  }

  /**
    A PIX key of type cpf is checked by length alone: eleven equal digits pass as a
    PIX key but are no valid CPF.
   */
  lemma PixCpfKeyIsNotCpfCheck(key: string)
    requires |key| == 11 && Text.AllDigits(key) && AllSame(key)
    ensures PixService.ValidatePixKey(key, "cpf")
    ensures !CpfValid(key)
  {
    Text.DigitsOfDigits(key);
  }

  // ---------------------------------------------------------------- the rule engine

  /** A field's rules; `min`/`max` are absent when undefined, `custom` validators are not modelled. */
  datatype Rules = Rules(
    ty: Option<string>, min: Option<real>, max: Option<real>, enumValues: Option<seq<JsValue>>,
    email: bool, phone: bool, cpf: bool, cnpj: bool)

  datatype Schema = Schema(required: Option<seq<string>>, fields: seq<(string, Rules)>)

  /** The error messages, one kind per `errors.push`. */
  datatype FieldError =
    | Required(field: string)
    | WrongType(field: string, expected: string)
    | TooShort(field: string) | TooLong(field: string)
    | BelowMin(field: string) | AboveMax(field: string)
    | NotInEnum(field: string)
    | BadEmail(field: string) | BadPhone(field: string) | BadCpf(field: string) | BadCnpj(field: string)

  /** The middleware's answer: continue, a 400 with the collected errors, or a 500 when a rule threw. */
  datatype Outcome = Pass | Reject(errors: seq<FieldError>) | Crash

  /** `=== undefined || === null || === ''`. */
  predicate Missing(v: JsValue) {
    v.JUndefined? || v.JNull? || v == JStr("")
  }

  /** The errors of the required-field loop, in the listed order. */
  function RequiredErrors(body: JsValue, required: seq<string>): (errs: seq<FieldError>)
    ensures |errs| <= |required|
    ensures forall f :: Required(f) in errs <==> f in required && Missing(Get(body, f))
    ensures forall e :: e in errs ==> e.Required?
  {
    if required == [] then []
    else
      (if Missing(Get(body, required[0])) then [Required(required[0])] else [])
      + RequiredErrors(body, required[1..])
  }

  /** `Array.isArray(value) ? 'array' : typeof value`. */
  function ActualType(v: JsValue): string {
    if v.JArr? then "array" else TypeOf(v)
  }

  /** `value.length` where it is a number: strings and arrays. */
  function Length(v: JsValue): Option<int> {
    match v
    case JStr(s) => Some(|s|)
    case JArr(items) => Some(|items|)
    case _ => None
  }

  /** A truthy number bound; a bound of 0 is falsy. */
  predicate TruthyBound(b: Option<real>) {
    b.Some? && b.value != 0.0
  }

  /** `/^\+?[1-9]\d{1,14}$/` on a string of digits: 2 to 15 digits, the first not zero. */
  predicate PhoneDigits(d: string)
    requires Text.AllDigits(d)
  {
    2 <= |d| <= 15 && d[0] != '0'
  }

  function When(c: bool, e: FieldError): (errs: seq<FieldError>)
    ensures errs == [] <==> !c
    ensures c ==> errs == [e]
  {
    if c then [e] else []
  }

  /** The type rule: an error naming the expected type when a truthy `type` differs from the value's. */
  function TypeErrors(field: string, v: JsValue, rules: Rules): (errs: seq<FieldError>)
    ensures forall t :: WrongType(field, t) in errs <==> (rules.ty == Some(t) && t != "" && t != ActualType(v))
    ensures errs == [] <==> (rules.ty.Some? && rules.ty.value != "" ==> rules.ty.value == ActualType(v))
  {
    When(rules.ty.Some? && rules.ty.value != "" && ActualType(v) != rules.ty.value, WrongType(field, rules.ty.GetOr("")))
  }

  /** The length rules, checked only for `type: 'string'` and only against a truthy bound. */
  function LengthErrors(field: string, v: JsValue, rules: Rules): (errs: seq<FieldError>)
    ensures TooShort(field) in errs <==>
      (rules.ty == Some("string") && TruthyBound(rules.min) && Length(v).Some? && (Length(v).value as real) < rules.min.value)
    ensures TooLong(field) in errs <==>
      (rules.ty == Some("string") && TruthyBound(rules.max) && Length(v).Some? && (Length(v).value as real) > rules.max.value)
    ensures errs == [] <==>
      && (rules.ty == Some("string") && TruthyBound(rules.min) && Length(v).Some? ==> Length(v).value as real >= rules.min.value)
      && (rules.ty == Some("string") && TruthyBound(rules.max) && Length(v).Some? ==> Length(v).value as real <= rules.max.value)
  {
    var isString := rules.ty == Some("string");
    When(isString && TruthyBound(rules.min) && Length(v).Some? && (Length(v).value as real) < rules.min.value, TooShort(field))
    + When(isString && TruthyBound(rules.max) && Length(v).Some? && (Length(v).value as real) > rules.max.value, TooLong(field))
  }

  /** The bound rules, checked for `type: 'number'` whenever the bound is defined, 0 included. */
  function BoundErrors(field: string, v: JsValue, rules: Rules): (errs: seq<FieldError>)
    ensures BelowMin(field) in errs <==> (rules.ty == Some("number") && rules.min.Some? && v.JNum? && v.n < rules.min.value)
    ensures AboveMax(field) in errs <==> (rules.ty == Some("number") && rules.max.Some? && v.JNum? && v.n > rules.max.value)
    ensures errs == [] <==>
      && (rules.ty == Some("number") && rules.min.Some? && v.JNum? ==> v.n >= rules.min.value)
      && (rules.ty == Some("number") && rules.max.Some? && v.JNum? ==> v.n <= rules.max.value)
  {
    var isNumber := rules.ty == Some("number");
    When(isNumber && rules.min.Some? && v.JNum? && v.n < rules.min.value, BelowMin(field))
    + When(isNumber && rules.max.Some? && v.JNum? && v.n > rules.max.value, AboveMax(field))
  }

  /** The errors of the type, length, bound and enum rules, which never throw, in the order they are checked. */
  function ShapeErrors(field: string, v: JsValue, rules: Rules): (errs: seq<FieldError>)
    ensures errs == [] <==>
      && (rules.ty.Some? && rules.ty.value != "" ==> rules.ty.value == ActualType(v))
      && (rules.ty == Some("string") && TruthyBound(rules.min) && Length(v).Some? ==> Length(v).value as real >= rules.min.value)
      && (rules.ty == Some("string") && TruthyBound(rules.max) && Length(v).Some? ==> Length(v).value as real <= rules.max.value)
      && (rules.ty == Some("number") && rules.min.Some? && v.JNum? ==> v.n >= rules.min.value)
      && (rules.ty == Some("number") && rules.max.Some? && v.JNum? ==> v.n <= rules.max.value)
      && (rules.enumValues.Some? ==> v in rules.enumValues.value)
  {
    var typeErrs := TypeErrors(field, v, rules);
    var lengthErrs := LengthErrors(field, v, rules);
    var boundErrs := BoundErrors(field, v, rules);
    typeErrs + lengthErrs + boundErrs + When(rules.enumValues.Some? && v !in rules.enumValues.value, NotInEnum(field))
  }

  /** The e-mail, phone, CPF and CNPJ rules on a string value, after `replace(/\D/g, '')` for the last three. */
  function FormatErrors(field: string, s: string, rules: Rules): (errs: seq<FieldError>)
    ensures BadEmail(field) in errs <==> (rules.email && !PixService.IsEmail(s))
    ensures BadPhone(field) in errs <==> (rules.phone && !PhoneDigits(Text.DigitsOf(s)))
    ensures BadCpf(field) in errs <==> (rules.cpf && !CpfValid(Text.DigitsOf(s)))
    ensures BadCnpj(field) in errs <==> (rules.cnpj && !CnpjValid(Text.DigitsOf(s)))
    ensures errs == [] <==>
      && (rules.email ==> PixService.IsEmail(s))
      && (rules.phone ==> PhoneDigits(Text.DigitsOf(s)))
      && (rules.cpf ==> CpfValid(Text.DigitsOf(s)))
      && (rules.cnpj ==> CnpjValid(Text.DigitsOf(s)))
  {
    var d := Text.DigitsOf(s);
    When(rules.email && !PixService.IsEmail(s), BadEmail(field))
    + When(rules.phone && !PhoneDigits(d), BadPhone(field))
    + When(rules.cpf && !CpfValid(d), BadCpf(field))
    + When(rules.cnpj && !CnpjValid(d), BadCnpj(field))
  }

  /** The rules that call `value.replace`, which throws on anything but a string. */
  predicate Replaces(rules: Rules) {
    rules.phone || rules.cpf || rules.cnpj
  }

  /**
    The errors of one field's rules, applied only to a value that is neither
    `undefined` nor `null`. The e-mail pattern fails on every non-string.
   */
  function FieldErrors(field: string, v: JsValue, rules: Rules): (r: Result<seq<FieldError>>)
    ensures Nullish(v) ==> r == Ok([])
    ensures r.Err? <==> !Nullish(v) && !v.JStr? && Replaces(rules)
  {
    if Nullish(v) then Ok([])
    else if !v.JStr? && Replaces(rules) then Err("value.replace is not a function")
    else if v.JStr? then Ok(ShapeErrors(field, v, rules) + FormatErrors(field, v.s, rules))
    else Ok(ShapeErrors(field, v, rules) + When(rules.email, BadEmail(field)))
  }

  /** A present value passes its field's rules exactly when it has every property the rules ask for. */
  lemma FieldErrorsMeaning(field: string, v: JsValue, rules: Rules)
    requires !Nullish(v) && (v.JStr? || !Replaces(rules))
    ensures FieldErrors(field, v, rules).Ok?
    ensures FieldErrors(field, v, rules).value == [] <==>
      && ShapeErrors(field, v, rules) == []
      && (rules.email ==> v.JStr? && PixService.IsEmail(v.s))
      && (rules.phone ==> PhoneDigits(Text.DigitsOf(v.s)))
      && (rules.cpf ==> CpfValid(Text.DigitsOf(v.s)))
      && (rules.cnpj ==> CnpjValid(Text.DigitsOf(v.s)))
  {
  }

  /** The rules of the field entry `f` throw on the body's value. */
  predicate Throws(body: JsValue, f: (string, Rules)) {
    FieldErrors(f.0, Get(body, f.0), f.1).Err?
  }

  /** The body's value obeys every rule of the field entry `f`. */
  predicate Clean(body: JsValue, f: (string, Rules)) {
    FieldErrors(f.0, Get(body, f.0), f.1) == Ok([])
  }

  /** Each field's rules in the schema's order; the first one that throws ends the request. */
  function FieldsErrors(body: JsValue, fields: seq<(string, Rules)>): (r: Result<seq<FieldError>>)
    ensures r.Err? <==> exists f :: f in fields && Throws(body, f)
    ensures r.Ok? ==> (r.value == [] <==> forall f :: f in fields ==> Clean(body, f))
  {
    if fields == [] then Ok([])
    else
      var first := FieldErrors(fields[0].0, Get(body, fields[0].0), fields[0].1);
      var rest := FieldsErrors(body, fields[1..]);
      assert fields == [fields[0]] + fields[1..];
      assert fields[0] in fields;
      assert first.Err? <==> Throws(body, fields[0]);
      assert Clean(body, fields[0]) <==> first == Ok([]);
      if first.Err? then first
      else if rest.Err? then rest
      else Ok(first.value + rest.value)
  }

  /**
    `validate(schema)`: the required fields first, then each field's rules in the
    schema's order. A 400 is sent iff some error was collected; a rule that throws,
    or a lookup on a missing body, gives a 500 instead.
   */
  function Check(schema: Schema, body: JsValue): (o: Outcome)
    ensures Nullish(body) && ((schema.required.Some? && schema.required.value != []) || schema.fields != []) ==> o == Crash
    ensures o.Reject? ==> o.errors != []
    ensures o.Crash? <==>
      ((Nullish(body) && ((schema.required.Some? && schema.required.value != []) || schema.fields != []))
       || FieldsErrors(body, schema.fields).Err?)
    ensures o.Pass? <==>
      (!o.Crash? && RequiredErrors(body, schema.required.GetOr([])) == [] && FieldsErrors(body, schema.fields) == Ok([]))
  {
    var required := schema.required.GetOr([]);
    if Nullish(body) && (required != [] || schema.fields != []) then Crash
    else
      var fieldErrs := FieldsErrors(body, schema.fields);
      if fieldErrs.Err? then Crash
      else
        var errs := RequiredErrors(body, required) + fieldErrs.value;
        if errs != [] then Reject(errs) else Pass
  }

  /** A request that passes has every required field and every present field obeying its rules. */
  lemma {:induction false} PassMeans(schema: Schema, body: JsValue)
    requires Check(schema, body).Pass?
    ensures schema.required.Some? ==> forall f :: f in schema.required.value ==> !Missing(Get(body, f))
    ensures forall f :: f in schema.fields ==> Clean(body, f)
  {
    var required := schema.required.GetOr([]);
    assert RequiredErrors(body, required) == [];
  }

  /** A rejected request names every missing required field. */
  lemma RejectNamesMissing(schema: Schema, body: JsValue, f: string)
    requires Check(schema, body).Reject? && schema.required.Some?
    requires f in schema.required.value && Missing(Get(body, f))
    ensures Required(f) in Check(schema, body).errors
  {
  }

  /** A string bound of 0 is never enforced, whatever the value's length. */
  lemma ZeroMinIgnored(field: string, v: JsValue, rules: Rules)
    requires rules.ty == Some("string") && rules.min == Some(0.0)
    ensures TooShort(field) !in LengthErrors(field, v, rules)
  {
  }
}
