/**
 * The form validator of the gateway's shared components: a list of rules,
 * each naming a field of the form data, checked in order; every rule adds its
 * error messages to one list.
 */
module FormValidation {
  import opened Common
  import opened JsText

  /**
   * A validation rule. `pattern` stands for the regular expression's `test`
   * and `custom` for the custom check, which answers an error message or
   * nothing.
   */
  datatype ValidationRule = ValidationRule(
    field: string,
    required: bool,
    minLength: Option<int>,
    maxLength: Option<int>,
    pattern: Option<string -> bool>,
    custom: Option<JsValue -> Option<string>>)

  /** The form data; a key that is not present reads as `undefined`. */
  type FormData = map<string, JsValue>

  function Lookup(data: FormData, key: string): JsValue {
    if key in data then data[key] else Undefined
  }

  /** A length bound takes part only when it is set and not zero. */
  predicate BoundSet(bound: Option<int>) {
    bound.Some? && bound.value != 0
  }

  function RequiredMessage(name: string): string {
    name + " es obligatorio"
  }

  function TooShortMessage(name: string, min: int): string {
    name + " debe tener al menos " + IntToString(min) + " caracteres"
  }

  function TooLongMessage(name: string, max: int): string {
    name + " debe tener máximo " + IntToString(max) + " caracteres"
  }

  function FormatMessage(name: string): string {
    name + " tiene un formato inválido"
  }

  /** The message of the custom check when it answers a non-empty one. */
  function CustomError(rule: ValidationRule, value: JsValue): Option<string> {
    if rule.custom.Some? && rule.custom.value(value).Some? && rule.custom.value(value).value != "" then
      rule.custom.value(value)
    else None
  }

  /** The minimum-length error of a string below a set minimum. */
  function MinLengthErrors(rule: ValidationRule, value: JsValue): seq<string> {
    if BoundSet(rule.minLength) && value.Str? && Utf16Length(value.s) < rule.minLength.value
    then [TooShortMessage(DisplayName(rule.field), rule.minLength.value)] else []
  }

  /** The maximum-length error of a string above a set maximum. */
  function MaxLengthErrors(rule: ValidationRule, value: JsValue): seq<string> {
    if BoundSet(rule.maxLength) && value.Str? && Utf16Length(value.s) > rule.maxLength.value
    then [TooLongMessage(DisplayName(rule.field), rule.maxLength.value)] else []
  }

  /** The format error of a string the pattern rejects. */
  function PatternErrors(rule: ValidationRule, value: JsValue): seq<string> {
    if rule.pattern.Some? && value.Str? && !rule.pattern.value(value.s)
    then [FormatMessage(DisplayName(rule.field))] else []
  }

  /** The custom check's message, when it gives one. */
  function CustomErrors(rule: ValidationRule, value: JsValue): seq<string> {
    if CustomError(rule, value).Some? then [CustomError(rule, value).value] else []
  }

  /**
   * The errors one rule adds: a missing value is only reported when it is
   * required, and then alone; a present value is checked against the length
   * bounds and the pattern when it is a string, and against the custom check.
   */
  function RuleErrors(data: FormData, rule: ValidationRule): seq<string> {
    var value := Lookup(data, rule.field);
    if rule.required && Missing(value) then [RequiredMessage(DisplayName(rule.field))]
    else if Missing(value) then []
    else MinLengthErrors(rule, value) + MaxLengthErrors(rule, value) +
         PatternErrors(rule, value) + CustomErrors(rule, value)
  }

  /** The lists `f` gives for the elements of `xs`, joined in order. */
  function ConcatMap<T>(f: T -> seq<string>, xs: seq<T>): seq<string> {
    if xs == [] then [] else ConcatMap(f, xs[..|xs| - 1]) + f(xs[|xs| - 1])
  }

  /** One more element adds its list at the end. */
  lemma ConcatMapSnoc<T>(f: T -> seq<string>, xs: seq<T>, x: T)
    ensures ConcatMap(f, xs + [x]) == ConcatMap(f, xs) + f(x)
  {
    assert (xs + [x])[..|xs|] == xs;
  }

  /** Joining distributes over the concatenation of the inputs. */
  lemma {:induction false} ConcatMapAppend<T>(f: T -> seq<string>, a: seq<T>, b: seq<T>)
    ensures ConcatMap(f, a + b) == ConcatMap(f, a) + ConcatMap(f, b)
    decreases |b|
  {
    if b == [] {
      assert a + b == a;
    } else {
      var c := b[..|b| - 1];
      var x := b[|b| - 1];
      assert a + b == (a + c) + [x];
      ConcatMapSnoc(f, a + c, x);
      ConcatMapSnoc(f, c, x);
      assert b == c + [x];
      ConcatMapAppend(f, a, c);
    }
  }

  /** Lists of at most `n` elements each join to at most `n` per input. */
  lemma {:induction false} ConcatMapBound<T>(f: T -> seq<string>, xs: seq<T>, n: nat)
    requires forall k :: 0 <= k < |xs| ==> |f(xs[k])| <= n
    ensures |ConcatMap(f, xs)| <= n * |xs|
  {
    if xs != [] {
      ConcatMapBound(f, xs[..|xs| - 1], n);
    }
  }

  /** `validateForm` as a specification: the rules' errors, rule after rule. */
  function FormErrors(data: FormData, rules: seq<ValidationRule>): seq<string> {
    ConcatMap(rule => RuleErrors(data, rule), rules)
  }

  /**
   * The callback `validateForm` runs for one rule: it pushes the rule's
   * errors onto `errors`, returning early at the required check or at a
   * missing value.
   */
  method CheckRule(data: FormData, rule: ValidationRule, errors: seq<string>) returns (result: seq<string>)
    ensures result == errors + RuleErrors(data, rule)
  {
    var value := Lookup(data, rule.field);
    var fieldName := DisplayName(rule.field);
    if rule.required && Missing(value) {
      result := errors + [RequiredMessage(fieldName)];
      return;
    }
    if Missing(value) {
      result := errors;
      return;
    }
    var added := [];
    if BoundSet(rule.minLength) && value.Str? && Utf16Length(value.s) < rule.minLength.value {
      added := added + [TooShortMessage(fieldName, rule.minLength.value)];
    }
    assert added == MinLengthErrors(rule, value);
    if BoundSet(rule.maxLength) && value.Str? && Utf16Length(value.s) > rule.maxLength.value {
      added := added + [TooLongMessage(fieldName, rule.maxLength.value)];
    }
    assert added == MinLengthErrors(rule, value) + MaxLengthErrors(rule, value);
    if rule.pattern.Some? && value.Str? && !rule.pattern.value(value.s) {
      added := added + [FormatMessage(fieldName)];
    }
    assert added == MinLengthErrors(rule, value) + MaxLengthErrors(rule, value) + PatternErrors(rule, value);
    if rule.custom.Some? {
      var customError := rule.custom.value(value);
      if customError.Some? && customError.value != "" {
        added := added + [customError.value];
      }
    }
    assert added == RuleErrors(data, rule);
    result := errors + added;
  }

  /** `validateForm`: runs the rule callback for every rule, in order. */
  method ValidateForm(data: FormData, rules: seq<ValidationRule>) returns (errors: seq<string>)
    ensures errors == FormErrors(data, rules)
  {
    errors := [];
    var i := 0;
    while i < |rules|
      invariant 0 <= i <= |rules|
      invariant errors == FormErrors(data, rules[..i])
    {
      assert rules[..i + 1] == rules[..i] + [rules[i]];
      FormErrorsSnoc(data, rules[..i], rules[i]);
      errors := CheckRule(data, rules[i], errors);
      i := i + 1;
    }
    assert rules[..i] == rules;
  }

  /** One more rule adds its errors at the end. */
  lemma FormErrorsSnoc(data: FormData, rules: seq<ValidationRule>, rule: ValidationRule)
    ensures FormErrors(data, rules + [rule]) == FormErrors(data, rules) + RuleErrors(data, rule)
  {
    ConcatMapSnoc(r => RuleErrors(data, r), rules, rule);
  }

  /** The errors of consecutive rule lists follow one another: errors come in rule order. */
  lemma FormErrorsAppend(data: FormData, a: seq<ValidationRule>, b: seq<ValidationRule>)
    ensures FormErrors(data, a + b) == FormErrors(data, a) + FormErrors(data, b)
  {
    ConcatMapAppend(rule => RuleErrors(data, rule), a, b);
  }

  /** No rules, no errors; a single rule gives that rule's errors. */
  lemma FormErrorsOfFewRules(data: FormData, rule: ValidationRule)
    ensures FormErrors(data, []) == []
    ensures FormErrors(data, [rule]) == RuleErrors(data, rule)
  {
    ConcatMapSnoc(r => RuleErrors(data, r), [], rule);
  }

  /** Every rule adds at most four errors, so a form has at most four per rule. */
  lemma FormErrorsBound(data: FormData, rules: seq<ValidationRule>)
    ensures |FormErrors(data, rules)| <= 4 * |rules|
  {
    forall k | 0 <= k < |rules| ensures |RuleErrors(data, rules[k])| <= 4 {
    }
    ConcatMapBound(rule => RuleErrors(data, rule), rules, 4);
  }

  /** A required rule with a falsy or blank value gives exactly the "es obligatorio" error. */
  lemma RequiredMissingValue(data: FormData, rule: ValidationRule)
    requires rule.required && Missing(Lookup(data, rule.field))
    ensures RuleErrors(data, rule) == [DisplayName(rule.field) + " es obligatorio"]
  {
  }

  /** An optional rule with a falsy or blank value gives no error, whatever its other checks. */
  lemma OptionalMissingValue(data: FormData, rule: ValidationRule)
    requires !rule.required && Missing(Lookup(data, rule.field))
    ensures RuleErrors(data, rule) == []
  {
  }

  /**
   * A value that is present but not a string is only checked by the custom
   * check: the length bounds and the pattern apply to strings alone.
   */
  lemma NonStringOnlyCustom(data: FormData, rule: ValidationRule)
    requires !Missing(Lookup(data, rule.field)) && !Lookup(data, rule.field).Str?
    ensures RuleErrors(data, rule) ==
      if CustomError(rule, Lookup(data, rule.field)).Some? then [CustomError(rule, Lookup(data, rule.field)).value] else []
  {
  }

  /**
   * A string within its bounds that matches its pattern and passes the custom
   * check gives no error; one shorter than its minimum gets the "al menos" error first.
   */
  lemma StringChecks(data: FormData, rule: ValidationRule, s: string)
    requires Lookup(data, rule.field) == Str(s) && Trim(s) != ""
    ensures (!(BoundSet(rule.minLength) && Utf16Length(s) < rule.minLength.value) &&
             !(BoundSet(rule.maxLength) && Utf16Length(s) > rule.maxLength.value) &&
             !(rule.pattern.Some? && !rule.pattern.value(s)) &&
             CustomError(rule, Str(s)).None?) ==> RuleErrors(data, rule) == []
    ensures BoundSet(rule.minLength) && Utf16Length(s) < rule.minLength.value ==>
      RuleErrors(data, rule)[0] == TooShortMessage(DisplayName(rule.field), rule.minLength.value)
  {
  }
}
