/**
 * Form validation and submission (js/modules/forms.js): the five
 * `validationRules`, the per-field rule list that `getFieldRules` builds, the
 * first-failure evaluation of `validateField`, whole-form validation, the
 * submit-button (CTA) rule, the filled-field counter of the progress bar and
 * the control flow of `handleFormSubmit`.
 *
 * One `Form` object stands for one `form[data-form]` element together with
 * the FormManager handlers that act on it. A field's DOM state is reduced to
 * its value and a `FieldView`: the two validation classes and the text of
 * the error element inside its container.
 */
module Forms {
  import opened Js
  import GasIntegration

  // ---------------------------------------------------------------------
  // validationRules

  /** `required`: the value with surrounding whitespace trimmed is non-empty. */
  predicate Required(value: string) {
    Utf16Length(Trim(value)) > 0
  }

  /**
   * A field is blank when `value.trim()` is the empty string, that is, when
   * every character is whitespace (`BlankIff`).
   */
  predicate Blank(value: string) {
    AllWhiteSpace(value)
  }

  lemma BlankIff(value: string)
    ensures Blank(value) <==> Trim(value) == ""
  {
    TrimEmptyIff(value);
  }

  lemma RequiredIff(value: string)
    ensures Required(value) <==> !Blank(value)
    ensures Required(value) <==> exists i :: 0 <= i < |value| && !IsWhiteSpace(value[i])
  {
    TrimEmptyIff(value);
  }

  /** A character that `[^\s@]` matches. */
  predicate EmailChar(c: char) {
    !IsWhiteSpace(c) && c != '@'
  }

  /** A string that `[^\s@]+` matches in full. */
  predicate EmailRun(s: string) {
    |s| > 0 && forall i :: 0 <= i < |s| ==> EmailChar(s[i])
  }

  /**
   * The language of `/^[^\s@]+@[^\s@]+\.[^\s@]+$/`: a run, '@', a run, '.',
   * a run, where `a` and `b` are the positions the '@' and the '.' of the
   * pattern match.
   */
  ghost predicate EmailPattern(s: string) {
    exists a, b :: 0 <= a < b < |s| && s[a] == '@' && s[b] == '.'
                   && EmailRun(s[..a]) && EmailRun(s[a + 1..b]) && EmailRun(s[b + 1..])
  }

  /**
   * The `email` rule: no whitespace, exactly one '@' with a non-empty local
   * part before it, and a domain after it holding a '.' that is neither its
   * first nor its last character.
   */
  predicate Email(value: string) {
    && (forall i :: 0 <= i < |value| ==> !IsWhiteSpace(value[i]))
    && '@' in value
    && var at := IndexOf(value, '@');
       && at > 0
       && '@' !in value[at + 1..]
       && DotInside(value[at + 1..])
  }

  /** `d` has a '.' at a position other than its first and its last. */
  predicate DotInside(d: string) {
    |d| >= 3 && '.' in d[1..|d| - 1]
  }

  /** The `email` rule accepts exactly the strings the regular expression matches. */
  lemma EmailMatchesPattern(s: string)
    ensures Email(s) <==> EmailPattern(s)
  {
    if Email(s) {
      EmailHasPattern(s);
    }
    if EmailPattern(s) {
      var a, b :| 0 <= a < b < |s| && s[a] == '@' && s[b] == '.'
                  && EmailRun(s[..a]) && EmailRun(s[a + 1..b]) && EmailRun(s[b + 1..]);
      PatternIsEmail(s, a, b);
    }
  }

  lemma EmailHasPattern(s: string)
    requires Email(s)
    ensures EmailPattern(s)
  {
    var a := IndexOf(s, '@');
    var d := s[a + 1..];
    var k := IndexOf(d[1..|d| - 1], '.');
    var b := a + 2 + k;
    assert s[b] == '.' by { assert s[b] == d[1..|d| - 1][k]; }
    var local, domain, top := s[..a], s[a + 1..b], s[b + 1..];
    forall i | 0 <= i < |local|
      ensures EmailChar(local[i])
    {
      assert local[i] == s[i] && local[i] in s[..a];
    }
    forall i | 0 <= i < |domain|
      ensures EmailChar(domain[i])
    {
      assert domain[i] == d[i] == s[a + 1 + i] && d[i] in d;
    }
    forall i | 0 <= i < |top|
      ensures EmailChar(top[i])
    {
      assert top[i] == d[i + b - a] == s[b + 1 + i] && d[i + b - a] in d;
    }
    assert EmailRun(local) && EmailRun(domain) && EmailRun(top);
  }

  lemma PatternIsEmail(s: string, a: nat, b: nat)
    requires a < b < |s| && s[a] == '@' && s[b] == '.'
    requires EmailRun(s[..a]) && EmailRun(s[a + 1..b]) && EmailRun(s[b + 1..])
    ensures Email(s)
  {
    var local, domain, top := s[..a], s[a + 1..b], s[b + 1..];
    forall i | 0 <= i < |s|
      ensures !IsWhiteSpace(s[i]) && (i != a ==> s[i] != '@')
    {
      if i < a {
        assert s[i] == local[i];
      } else if a < i < b {
        assert s[i] == domain[i - a - 1];
      } else if b < i {
        assert s[i] == top[i - b - 1];
      }
    }
    assert '@' !in local by {
      forall i | 0 <= i < a ensures local[i] != '@' { assert local[i] == s[i]; }
    }
    IndexOfAt(s, '@', a);
    var d := s[a + 1..];
    assert '@' !in d by {
      forall i | 0 <= i < |d| ensures d[i] != '@' { assert d[i] == s[a + 1 + i]; }
    }
    assert d[1..|d| - 1][b - a - 2] == '.';
  }

  /** A character of the class `[0-9\s\-\(\)]`. */
  predicate PhoneChar(c: char) {
    IsDecimalDigit(c) || IsWhiteSpace(c) || c == '-' || c == '(' || c == ')'
  }

  /**
   * A string that `[0-9\s\-\(\)]{10,}` matches in full. Every character
   * of the class is a single UTF-16 code unit, so `{10,}` counts characters.
   */
  predicate PhoneRun(s: string) {
    |s| >= 10 && forall i :: 0 <= i < |s| ==> PhoneChar(s[i])
  }

  /**
   * The language of `/^[\+]?[0-9\s\-\(\)]{10,}$/`: the optional '+'
   * either absent or present.
   */
  predicate PhonePattern(s: string) {
    PhoneRun(s) || (|s| > 0 && s[0] == '+' && PhoneRun(s[1..]))
  }

  /**
   * The `phone` rule: a leading '+' is dropped, and what remains must be at
   * least ten digits, spaces, '-', '(' or ')'.
   */
  predicate Phone(value: string) {
    PhoneRun(if |value| > 0 && value[0] == '+' then value[1..] else value)
  }

  /** The `phone` rule accepts exactly the strings the regular expression matches. */
  lemma PhoneMatchesPattern(s: string)
    ensures Phone(s) <==> PhonePattern(s)
  {
    if |s| > 0 && s[0] == '+' {
      assert !PhoneChar(s[0]);
    }
  }

  /** `minLength`: `value.length >= min`, false when `min` is NaN. */
  predicate MinLength(value: string, min: Number) {
    min.Int? && Utf16Length(value) >= min.i
  }

  /** `maxLength`: `value.length <= max`, false when `max` is NaN. */
  predicate MaxLength(value: string, max: Number) {
    max.Int? && Utf16Length(value) <= max.i
  }

  /** `n` spaces. */
  function Spaces(n: nat): string {
    seq(n, _ => ' ')
  }

  /**
   * The length rules measure the raw value, whitespace included: a value of
   * n spaces is blank, so `required` rejects it, yet it meets `minLength` n
   * and `maxLength` n.
   */
  lemma {:induction false} LengthRulesUntrimmed(n: nat)
    ensures Blank(Spaces(n)) && !Required(Spaces(n))
    ensures MinLength(Spaces(n), Int(n)) && MaxLength(Spaces(n), Int(n))
  {
    SpacesLength(n);
    assert forall i :: 0 <= i < n ==> Spaces(n)[i] == ' ';
    RequiredIff(Spaces(n));
  }

  lemma {:induction false} SpacesLength(n: nat)
    ensures Utf16Length(Spaces(n)) == n
  {
    if n > 0 {
      SpacesLength(n - 1);
      assert Spaces(n)[0] == ' ' && Spaces(n)[1..] == Spaces(n - 1);
    }
  }

  // ---------------------------------------------------------------------
  // getFieldRules

  /** A value in the rules object. */
  datatype RuleValue =
    | Flag              // `true`
    | Parsed(n: Number) // `parseInt` of a `minlength`/`maxlength` attribute
    | Text(s: string)   // the value part of a `data-validate` item
  {
    predicate Truthy() {
      match this
      case Flag => true
      case Parsed(n) => n.Truthy()
      case Text(s) => s != ""
    }

    /** The number a relational comparison coerces the value to. */
    function ToNumber(): Number {
      match this
      case Flag => Int(1)
      case Parsed(n) => n
      case Text(s) => StringToNumber(s)
    }

    /** The value as a template literal renders it. */
    function Display(): string {
      match this
      case Flag => "true"
      case Parsed(n) => NumberToString(n)
      case Text(s) => s
    }
  }

  type Rules = Entries<RuleValue>

  datatype Tag = Input | TextArea | Select

  /** The attributes of a field that the rules and handlers read. */
  datatype FieldConfig = FieldConfig(
    tag: Tag,
    inputType: string,              // the `type` property
    required: bool,                 // the `required` attribute is present
    minlength: Option<string>,      // the `minlength` attribute
    maxlength: Option<string>,      // the `maxlength` attribute
    dataValidate: Option<string>)   // the `data-validate` attribute

  /** The value `getFieldRules` assigns to the key, when the attribute asks for it. */
  function MinLengthRule(cfg: FieldConfig): RuleValue {
    Parsed(ParseInt(cfg.minlength))
  }

  function MaxLengthRule(cfg: FieldConfig): RuleValue {
    Parsed(ParseInt(cfg.maxlength))
  }

  /** `obj[key] = value` when `cond` holds. */
  function SetIf(e: Rules, cond: bool, key: string, value: RuleValue): (r: Rules)
    ensures UniqueKeys(e) ==> UniqueKeys(r)
  {
    SetEntryFacts(e, key, value);
    if cond then SetEntry(e, key, value) else e
  }

  /**
   * The rules the attributes give, assigned one after the other into an
   * empty object, before any `data-validate` item.
   */
  function BaseRules(cfg: FieldConfig): (r: Rules)
    ensures UniqueKeys(r)
  {
    var r1 := SetIf([], cfg.required, "required", Flag);
    var r2 := SetIf(r1, cfg.inputType == "email", "email", Flag);
    var r3 := SetIf(r2, cfg.inputType == "tel", "phone", Flag);
    var r4 := SetIf(r3, cfg.minlength.Some?, "minLength", MinLengthRule(cfg));
    SetIf(r4, cfg.maxlength.Some?, "maxLength", MaxLengthRule(cfg))
  }

  /**
   * The attribute rules come in the order required, email, phone,
   * minLength, maxLength, each present exactly when its attribute is.
   */
  lemma BaseRulesOrder(cfg: FieldConfig)
    ensures BaseRules(cfg) ==
      (if cfg.required then [("required", Flag)] else [])
      + (if cfg.inputType == "email" then [("email", Flag)] else [])
      + (if cfg.inputType == "tel" then [("phone", Flag)] else [])
      + (if cfg.minlength.Some? then [("minLength", MinLengthRule(cfg))] else [])
      + (if cfg.maxlength.Some? then [("maxLength", MaxLengthRule(cfg))] else [])
  {
    var r1 := SetIf([], cfg.required, "required", Flag);
    SetIfNew([], cfg.required, "required", Flag);
    assert KeySet(r1) <= {"required"};
    var r2 := SetIf(r1, cfg.inputType == "email", "email", Flag);
    SetIfNew(r1, cfg.inputType == "email", "email", Flag);
    assert KeySet(r2) <= {"required", "email"};
    var r3 := SetIf(r2, cfg.inputType == "tel", "phone", Flag);
    assert "email"[0] != "phone"[0];
    SetIfNew(r2, cfg.inputType == "tel", "phone", Flag);
    assert KeySet(r3) <= {"required", "email", "phone"};
    var r4 := SetIf(r3, cfg.minlength.Some?, "minLength", MinLengthRule(cfg));
    SetIfNew(r3, cfg.minlength.Some?, "minLength", MinLengthRule(cfg));
    assert KeySet(r4) <= {"required", "email", "phone", "minLength"};
    assert "minLength"[1] != "maxLength"[1];
    SetIfNew(r4, cfg.maxlength.Some?, "maxLength", MaxLengthRule(cfg));
  }

  lemma SetIfNew(e: Rules, cond: bool, key: string, value: RuleValue)
    requires key !in KeySet(e)
    ensures SetIf(e, cond, key, value) == e + (if cond then [(key, value)] else [])
    ensures KeySet(SetIf(e, cond, key, value)) <= KeySet(e) + {key}
  {
    if !cond {
      assert e + [] == e;
    }
  }

  /**
   * One `data-validate` item: `rule.trim().split(':')` gives the name and
   * the value; a missing or empty value becomes `true`.
   */
  function CustomRule(item: string): (r: (string, RuleValue))
    ensures ':' !in r.0
    ensures r.1 == Flag || (r.1.Text? && r.1.s != "" && ':' !in r.1.s)
    ensures ':' !in Trim(item) ==> r == (Trim(item), Flag)
  {
    var parts := Split(Trim(item), ':');
    var value := if |parts| >= 2 && parts[1] != "" then Text(parts[1]) else Flag;
    assert parts[0] in parts;
    assert |parts| >= 2 ==> parts[1] in parts;
    if ':' !in Trim(item) then
      assert Split(Trim(item), ':') == [Trim(item)] by { SplitNoSep(Trim(item), ':'); }
      (parts[0], value)
    else (parts[0], value)
  }

  lemma SplitNoSep(s: string, sep: char)
    requires sep !in s
    ensures Split(s, sep) == [s]
  {
    SplitJoin([s], sep);
  }

  /** The items of the `data-validate` attribute, split on ','. */
  function CustomRules(cfg: FieldConfig): Rules {
    match cfg.dataValidate
    case None => []
    case Some(attr) => CustomRulesOf(Split(attr, ','))
  }

  function CustomRulesOf(items: seq<string>): (r: Rules)
    ensures |r| == |items|
    ensures forall i :: 0 <= i < |items| ==> r[i] == CustomRule(items[i])
  {
    if items == [] then [] else [CustomRule(items[0])] + CustomRulesOf(items[1..])
  }

  /**
   * `getFieldRules(field)`: the attribute rules in the order required,
   * email, phone, minLength, maxLength, then each `data-validate` item
   * assigned into the same object, so that an item naming an existing rule
   * replaces its value in place and a new name goes to the end.
   */
  function FieldRules(cfg: FieldConfig): Rules {
    Assign(BaseRules(cfg), CustomRules(cfg))
  }

  /**
   * The rules keep distinct names; the attribute rules come first and in
   * their order, and keep their values unless a `data-validate` item names
   * them again.
   */
  lemma FieldRulesShape(cfg: FieldConfig)
    ensures UniqueKeys(FieldRules(cfg))
    ensures |FieldRules(cfg)| >= |BaseRules(cfg)|
    ensures forall i :: 0 <= i < |BaseRules(cfg)| ==> FieldRules(cfg)[i].0 == BaseRules(cfg)[i].0
    ensures forall i :: 0 <= i < |BaseRules(cfg)| && BaseRules(cfg)[i].0 !in KeySet(CustomRules(cfg))
              ==> FieldRules(cfg)[i] == BaseRules(cfg)[i]
  {
    AssignFacts(BaseRules(cfg), CustomRules(cfg));
  }

  /**
   * `getFieldRules`, written as the source builds the object: conditional
   * assignments, then a loop over the `data-validate` items.
   */
  method GetFieldRules(cfg: FieldConfig) returns (rules: Rules)
    ensures rules == FieldRules(cfg)
  {
    rules := SetIf([], cfg.required, "required", Flag);
    rules := SetIf(rules, cfg.inputType == "email", "email", Flag);
    rules := SetIf(rules, cfg.inputType == "tel", "phone", Flag);
    rules := SetIf(rules, cfg.minlength.Some?, "minLength", MinLengthRule(cfg));
    rules := SetIf(rules, cfg.maxlength.Some?, "maxLength", MaxLengthRule(cfg));
    var customs := CustomRules(cfg);
    var k := 0;
    while k < |customs|
      invariant 0 <= k <= |customs|
      invariant Assign(rules, customs[k..]) == FieldRules(cfg)
    {
      assert customs[k..][1..] == customs[k + 1..];
      rules := SetEntry(rules, customs[k].0, customs[k].1);
      k := k + 1;
    }
  }

  // ---------------------------------------------------------------------
  // validateField

  const RequiredMessage := "Это поле обязательно для заполнения"
  const EmailMessage := "Введите корректный email адрес"
  const PhoneMessage := "Введите корректный номер телефона"

  const KnownRules: set<string> := {"required", "email", "phone", "minLength", "maxLength"}

  /**
   * One iteration of `validateField`'s loop: the message of the rule when
   * the value fails it, None when it passes. `required`, `email` and `phone`
   * apply only when the rule value is truthy; the length rules apply only to
   * a non-empty value and compare its untrimmed length.
   */
  function RuleFailure(name: string, v: RuleValue, value: string): (r: Option<string>)
    ensures r.Some? ==> name in KnownRules && r.value != ""
    ensures value == "" ==> r.None? || r == Some(RequiredMessage) || r == Some(EmailMessage)
                                    || r == Some(PhoneMessage)
  {
    if name == "required" && v.Truthy() && !Required(value) then Some(RequiredMessage)
    else if name == "email" && v.Truthy() && !Email(value) then Some(EmailMessage)
    else if name == "phone" && v.Truthy() && !Phone(value) then Some(PhoneMessage)
    else if name == "minLength" && value != "" && !MinLength(value, v.ToNumber()) then
      Some("Минимальная длина: " + v.Display() + " символов")
    else if name == "maxLength" && value != "" && !MaxLength(value, v.ToNumber()) then
      Some("Максимальная длина: " + v.Display() + " символов")
    else None
  }

  /** The message of the first rule, in order, that the value fails. */
  function FirstFailure(rules: Rules, value: string): (r: Option<string>)
    ensures r.Some? ==> r.value != ""
  {
    if rules == [] then None
    else
      var first := RuleFailure(rules[0].0, rules[0].1, value);
      if first.Some? then first else FirstFailure(rules[1..], value)
  }

  /**
   * The evaluation stops at the first failing rule: the message is that
   * rule's, every earlier rule passes, and the field is valid exactly when
   * every rule passes.
   */
  lemma {:induction false} FirstFailureIsFirst(rules: Rules, value: string)
    ensures FirstFailure(rules, value).None?
            <==> forall i :: 0 <= i < |rules| ==> RuleFailure(rules[i].0, rules[i].1, value).None?
    ensures FirstFailure(rules, value).Some? ==>
              exists i :: 0 <= i < |rules| && FirstFailure(rules, value) == RuleFailure(rules[i].0, rules[i].1, value)
                          && forall j :: 0 <= j < i ==> RuleFailure(rules[j].0, rules[j].1, value).None?
  {
    if rules != [] && RuleFailure(rules[0].0, rules[0].1, value).None? {
      FirstFailureIsFirst(rules[1..], value);
      assert forall i :: 1 <= i < |rules| ==> rules[i] == rules[1..][i - 1];
      if FirstFailure(rules, value).Some? {
        var i :| 0 <= i < |rules[1..]| && FirstFailure(rules[1..], value) == RuleFailure(rules[1..][i].0, rules[1..][i].1, value)
                 && forall j :: 0 <= j < i ==> RuleFailure(rules[1..][j].0, rules[1..][j].1, value).None?;
        assert FirstFailure(rules, value) == RuleFailure(rules[i + 1].0, rules[i + 1].1, value);
      }
    }
  }

  /** A rule whose name is not one of the five known ones never makes a field invalid. */
  lemma {:induction false} UnknownRuleHarmless(before: Rules, name: string, v: RuleValue, after: Rules, value: string)
    requires name !in KnownRules
    ensures FirstFailure(before + [(name, v)] + after, value) == FirstFailure(before + after, value)
  {
    if before == [] {
      assert before + [(name, v)] + after == [(name, v)] + after;
      assert ([(name, v)] + after)[1..] == after;
      assert before + after == after;
      assert RuleFailure(name, v, value).None?;
    } else {
      assert (before + [(name, v)] + after)[1..] == before[1..] + [(name, v)] + after;
      assert (before + after)[1..] == before[1..] + after;
      assert (before + [(name, v)] + after)[0] == before[0] == (before + after)[0];
      UnknownRuleHarmless(before[1..], name, v, after, value);
    }
  }

  /** Whether `validateField` finds the field valid. */
  predicate FieldIsValid(cfg: FieldConfig, value: string) {
    FirstFailure(FieldRules(cfg), value).None?
  }

  /**
   * A required field that is blank fails with the required message, whatever
   * else its attributes say: `required` is the first rule and no
   * `data-validate` item can make its value falsy.
   */
  lemma RequiredChecksFirst(cfg: FieldConfig, value: string)
    requires cfg.required && Blank(value)
    ensures FirstFailure(FieldRules(cfg), value) == Some(RequiredMessage)
  {
    RequiredIff(value);
    var r := FieldRules(cfg);
    FirstValueTruthy(cfg);
    assert RuleFailure(r[0].0, r[0].1, value) == Some(RequiredMessage);
  }

  /**
   * The first rule of a required field is `required`, and its value is `true`
   * or a `data-validate` value, which is never falsy.
   */
  lemma FirstValueTruthy(cfg: FieldConfig)
    requires cfg.required
    ensures |FieldRules(cfg)| > 0 && FieldRules(cfg)[0].0 == "required" && FieldRules(cfg)[0].1.Truthy()
  {
    BaseRulesOrder(cfg);
    var base, custom := BaseRules(cfg), CustomRules(cfg);
    assert base[0] == ("required", Flag);
    AssignFacts(base, custom);
    var v := Assign(base, custom)[0].1;
    if v != Flag {
      var j :| 0 <= j < |custom| && v == custom[j].1;
      var items := match cfg.dataValidate case None => [] case Some(attr) => Split(attr, ',');
      assert custom == CustomRulesOf(items);
      assert custom[j] == CustomRule(items[j]);
    }
  }

  /** A field that passes validation and is required is not blank. */
  lemma ValidRequiredNotBlank(cfg: FieldConfig, value: string)
    ensures cfg.required && FieldIsValid(cfg, value) ==> !Blank(value)
  {
    if cfg.required && Blank(value) {
      RequiredChecksFirst(cfg, value);
    }
  }

  // ---------------------------------------------------------------------
  // Field and form state

  /** The validation state a field shows. */
  datatype FieldView = FieldView(
    error: bool,                  // class form-input--error
    valid: bool,                  // class form-input--valid
    errorText: Option<string>)    // the .form-error element in its container

  const CleanView := FieldView(false, false, None)

  /**
   * What `updateFieldState` leaves after `validateField`: the error class
   * and the message for an invalid field; for a valid one, no error and the
   * valid class exactly when the value is not blank.
   */
  function Verdict(cfg: FieldConfig, value: string): (v: FieldView)
    ensures v.error <==> !FieldIsValid(cfg, value)
    ensures v.errorText.Some? <==> !FieldIsValid(cfg, value)
    ensures v.errorText.Some? ==> v.errorText.value != ""
    ensures v.valid <==> FieldIsValid(cfg, value) && !Blank(value)
  {
    match FirstFailure(FieldRules(cfg), value)
    case Some(message) => FieldView(true, false, Some(message))
    case None => FieldView(false, !Blank(value), None)
  }

  /** Every required field is non-blank: the condition that enables the submit button. */
  predicate AllRequiredFilled(fields: seq<FieldConfig>, values: seq<string>)
    requires |values| == |fields|
  {
    forall i :: 0 <= i < |fields| && fields[i].required ==> !Blank(values[i])
  }

  /** Every required field passes `validateField`. */
  predicate AllRequiredValid(fields: seq<FieldConfig>, values: seq<string>)
    requires |values| == |fields|
  {
    forall i :: 0 <= i < |fields| && fields[i].required ==> FieldIsValid(fields[i], values[i])
  }

  /** A form that validates always has its submit button enabled. */
  lemma ValidFormIsFilled(fields: seq<FieldConfig>, values: seq<string>)
    requires |values| == |fields| && AllRequiredValid(fields, values)
    ensures AllRequiredFilled(fields, values)
  {
    forall i | 0 <= i < |fields| && fields[i].required
      ensures !Blank(values[i])
    {
      ValidRequiredNotBlank(fields[i], values[i]);
    }
  }

  /** The fields the progress bar counts: `input[required]`. */
  predicate Counted(cfg: FieldConfig) {
    cfg.tag == Input && cfg.required
  }

  function CountRequiredInputs(fields: seq<FieldConfig>): nat {
    if fields == [] then 0
    else (if Counted(fields[0]) then 1 else 0) + CountRequiredInputs(fields[1..])
  }

  /** The number of `input[required]` fields whose trimmed value is non-empty. */
  function CountFilled(fields: seq<FieldConfig>, values: seq<string>): (n: nat)
    requires |values| == |fields|
    ensures n <= CountRequiredInputs(fields)
  {
    if fields == [] then 0
    else (if Counted(fields[0]) && !Blank(values[0]) then 1 else 0) + CountFilled(fields[1..], values[1..])
  }

  /** The counter reaches the total exactly when every counted field is filled. */
  lemma {:induction false} CountFilledAll(fields: seq<FieldConfig>, values: seq<string>)
    requires |values| == |fields|
    ensures CountFilled(fields, values) == CountRequiredInputs(fields)
            <==> forall i :: 0 <= i < |fields| && Counted(fields[i]) ==> !Blank(values[i])
  {
    if fields != [] {
      CountFilledAll(fields[1..], values[1..]);
      assert forall i :: 1 <= i < |fields| ==> fields[i] == fields[1..][i - 1] && values[i] == values[1..][i - 1];
    }
  }

  const ReadyText := "Готово! Можете отправлять заявку"
  const EmptyText := "Заполните форму для записи"

  /** The progress text for `filled` of `total` counted fields. */
  function ProgressText(filled: nat, total: nat): string {
    if filled == total then ReadyText
    else if filled > 0 then "Заполнено " + NatToString(filled) + " из " + NatToString(total) + " полей"
    else EmptyText
  }

  /**
   * With only `input` elements among the required fields, the progress bar
   * shows "ready" exactly when the submit button's rule enables it.
   */
  lemma ReadyIffFilled(fields: seq<FieldConfig>, values: seq<string>)
    requires |values| == |fields|
    requires forall i :: 0 <= i < |fields| && fields[i].required ==> fields[i].tag == Input
    ensures ProgressText(CountFilled(fields, values), CountRequiredInputs(fields)) == ReadyText
            <==> AllRequiredFilled(fields, values)
  {
    CountFilledAll(fields, values);
    var filled := CountFilled(fields, values);
    var total := CountRequiredInputs(fields);
    if filled != total && filled > 0 {
      var text := "Заполнено " + NatToString(filled) + " из " + NatToString(total) + " полей";
      assert text[0] != ReadyText[0];
    }
  }

  /** How a submission ended, as `submitForm` reports it. */
  datatype SubmitOutcome = Submitted(message: string) | Rejected(error: string)

  const SuccessText := "Заявка успешно отправлена! Мы свяжемся с вами в ближайшее время."
  const FallbackErrorText := "Ошибка при отправке заявки"

  /** `submitForm`: a fixed success text, or the lead client's error with a fallback. */
  function SubmitForm(outcomes: seq<GasIntegration.Attempt>): (r: SubmitOutcome)
    requires |outcomes| == GasIntegration.MaxAttempts
    ensures r.Submitted? <==> GasIntegration.SubmitLead(outcomes).Success?
    ensures r.Submitted? ==> r.message == SuccessText
    ensures r.Rejected? ==> r.error == GasIntegration.SubmitLead(outcomes).error && r.error != ""
  {
    match GasIntegration.SubmitLead(outcomes)
    case Success(_, _) => Submitted(SuccessText)
    case Failure(error) => Rejected(if error != "" then error else FallbackErrorText)
  }

  datatype MessageKind = SuccessMessage | ErrorMessage

  /** A `.form-message` element inserted before the form. */
  datatype Banner = Banner(id: nat, kind: MessageKind, text: string)

  /** The observable steps of a submission, in order. */
  datatype Effect =
    | Loading(on: bool)                          // setFormLoading changed the button
    | Sent(formData: GasIntegration.FormData)    // submitForm was called with this data

  /** The banners other than the one with this id. */
  function WithoutBanner(banners: seq<Banner>, id: nat): (r: seq<Banner>)
    ensures |r| <= |banners|
    ensures forall b :: b in r <==> b in banners && b.id != id
  {
    if banners == [] then []
    else (if banners[0].id == id then [] else [banners[0]]) + WithoutBanner(banners[1..], id)
  }

  class Form {
    const fields: seq<FieldConfig>
    /** The values `form.reset()` restores. */
    const defaults: seq<string>
    /** The form holds a `[data-form-submit]` button. */
    const hasSubmitButton: bool
    /** The form is the `.form--minimal` one with a progress fill and text. */
    const hasProgressBar: bool

    var values: seq<string>
    var views: seq<FieldView>
    /** The submit button's `disabled` property. */
    var submitDisabled: bool
    /** The submit button's `aria-busy` attribute is set. */
    var busy: bool
    var progressText: string
    /** The message elements before the form, oldest first. */
    var banners: seq<Banner>
    var nextBannerId: nat
    var effects: seq<Effect>
    /** Submissions whose `submitForm` call has not resolved yet. */
    var pending: nat

    ghost predicate Valid()
      reads this
    {
      |values| == |fields| && |views| == |fields| && |defaults| == |fields|
      && forall b :: b in banners ==> b.id < nextBannerId
    }

    /** The progress listeners exist: the form has the bar and at least one counted field. */
    predicate ProgressActive()
    {
      hasProgressBar && CountRequiredInputs(fields) > 0
    }

    /**
     * The form as `init` leaves it: default values, no validation state,
     * the initial `updateCTAState` and, when the listeners exist, the initial
     * progress update.
     */
    constructor (fields: seq<FieldConfig>, defaults: seq<string>, hasSubmitButton: bool, hasProgressBar: bool)
      requires |defaults| == |fields|
      ensures Valid()
      ensures this.fields == fields && this.defaults == defaults
      ensures this.hasSubmitButton == hasSubmitButton && this.hasProgressBar == hasProgressBar
      ensures values == defaults && views == seq(|fields|, _ => CleanView)
      ensures submitDisabled == (hasSubmitButton && !AllRequiredFilled(fields, defaults))
      ensures !busy && banners == [] && effects == [] && pending == 0
      ensures ProgressActive() ==> progressText == ProgressText(CountFilled(fields, defaults), CountRequiredInputs(fields))
    {
      this.fields := fields;
      this.defaults := defaults;
      this.hasSubmitButton := hasSubmitButton;
      this.hasProgressBar := hasProgressBar;
      values := defaults;
      views := seq(|fields|, _ => CleanView);
      submitDisabled := hasSubmitButton && !AllRequiredFilled(fields, defaults);
      busy := false;
      progressText := if hasProgressBar && CountRequiredInputs(fields) > 0
                      then ProgressText(CountFilled(fields, defaults), CountRequiredInputs(fields))
                      else "";
      banners := [];
      nextBannerId := 0;
      effects := [];
      pending := 0;
    }

    /**
     * `validateField(field)`: the rules in order, stopping at the first
     * failure, then `updateFieldState` with the outcome.
     */
    method ValidateField(i: nat) returns (isValid: bool)
      requires Valid() && i < |fields|
      modifies this
      ensures Valid()
      ensures isValid == FieldIsValid(fields[i], values[i])
      ensures views == old(views)[i := Verdict(fields[i], values[i])]
      ensures values == old(values) && submitDisabled == old(submitDisabled) && busy == old(busy)
      ensures progressText == old(progressText) && banners == old(banners)
      ensures nextBannerId == old(nextBannerId) && effects == old(effects) && pending == old(pending)
    {
      var value := values[i];
      var rules := GetFieldRules(fields[i]);
      isValid := true;
      var errorMessage := "";
      var k := 0;
      while k < |rules|
        invariant 0 <= k <= |rules|
        invariant FirstFailure(rules[k..], value) == FirstFailure(rules, value)
      {
        var failure := RuleFailure(rules[k].0, rules[k].1, value);
        if failure.Some? {
          isValid := false;
          errorMessage := failure.value;
          break;
        }
        assert rules[k..][1..] == rules[k + 1..];
        k := k + 1;
      }
      UpdateFieldState(i, isValid, errorMessage);
    }

    /**
     * `updateFieldState(field, isValid, errorMessage)`: the old error
     * element and both classes go; then either the error class and a new
     * error element, or the valid class for a non-blank value.
     */
    method UpdateFieldState(i: nat, isValid: bool, errorMessage: string)
      requires Valid() && i < |fields|
      modifies this
      ensures Valid()
      ensures views == old(views)[i := if !isValid && errorMessage != "" then FieldView(true, false, Some(errorMessage))
                                       else FieldView(false, isValid && !Blank(values[i]), None)]
      ensures values == old(values) && submitDisabled == old(submitDisabled) && busy == old(busy)
      ensures progressText == old(progressText) && banners == old(banners)
      ensures nextBannerId == old(nextBannerId) && effects == old(effects) && pending == old(pending)
    {
      if !isValid && errorMessage != "" {
        views := views[i := FieldView(true, false, Some(errorMessage))];
      } else {
        views := views[i := FieldView(false, isValid && !Blank(values[i]), None)];
      }
    }

    /** `clearFieldError(field)`: the error element and the error class go; the valid class stays. */
    method ClearFieldError(i: nat)
      requires Valid() && i < |fields|
      modifies this
      ensures Valid()
      ensures views == old(views)[i := old(views[i]).(error := false, errorText := None)]
      ensures values == old(values) && submitDisabled == old(submitDisabled) && busy == old(busy)
      ensures progressText == old(progressText) && banners == old(banners)
      ensures nextBannerId == old(nextBannerId) && effects == old(effects) && pending == old(pending)
    {
      views := views[i := views[i].(error := false, errorText := None)];
    }

    /**
     * `validateForm(form)`: every required field is validated, even after
     * one has failed, and the result is whether all of them passed.
     */
    method ValidateForm() returns (isValid: bool)
      requires Valid()
      modifies this
      ensures Valid()
      ensures isValid == AllRequiredValid(fields, values)
      ensures forall i :: 0 <= i < |fields| ==>
                views[i] == if fields[i].required then Verdict(fields[i], values[i]) else old(views[i])
      ensures values == old(values) && submitDisabled == old(submitDisabled) && busy == old(busy)
      ensures progressText == old(progressText) && banners == old(banners)
      ensures nextBannerId == old(nextBannerId) && effects == old(effects) && pending == old(pending)
    {
      isValid := true;
      var i := 0;
      while i < |fields|
        invariant 0 <= i <= |fields| && Valid()
        invariant values == old(values) && submitDisabled == old(submitDisabled) && busy == old(busy)
        invariant progressText == old(progressText) && banners == old(banners)
        invariant nextBannerId == old(nextBannerId) && effects == old(effects) && pending == old(pending)
        invariant isValid == forall j :: 0 <= j < i && fields[j].required ==> FieldIsValid(fields[j], values[j])
        invariant forall j :: 0 <= j < |fields| ==>
                    views[j] == if j < i && fields[j].required then Verdict(fields[j], values[j]) else old(views[j])
      {
        if fields[i].required {
          ghost var before := views;
          var ok := ValidateField(i);
          if !ok {
            isValid := false;
          }
          forall j | 0 <= j < |fields|
            ensures views[j] == if j < i + 1 && fields[j].required then Verdict(fields[j], values[j]) else old(views[j])
          {
            if j != i {
              assert views[j] == before[j];
            }
          }
        }
        i := i + 1;
      }
    }

    /**
     * `updateCTAState(form)`: with a submit button, it is disabled exactly
     * when some required field is blank.
     */
    method UpdateCTAState()
      requires Valid()
      modifies this
      ensures Valid()
      ensures submitDisabled == if hasSubmitButton then !AllRequiredFilled(fields, values) else old(submitDisabled)
      ensures values == old(values) && views == old(views) && busy == old(busy)
      ensures progressText == old(progressText) && banners == old(banners)
      ensures nextBannerId == old(nextBannerId) && effects == old(effects) && pending == old(pending)
    {
      if !hasSubmitButton {
        return;
      }
      var allFilled := true;
      var i := 0;
      while i < |fields| && allFilled
        invariant 0 <= i <= |fields|
        invariant allFilled == forall j :: 0 <= j < i && fields[j].required ==> !Blank(values[j])
        invariant !allFilled ==> !AllRequiredFilled(fields, values)
      {
        if fields[i].required && Blank(values[i]) {
          allFilled := false;
        }
        i := i + 1;
      }
      submitDisabled := !allFilled;
    }

    /**
     * The `updateProgress` closure of `setupProgressBar`: counts the filled
     * `input[required]` fields and picks the text.
     */
    method UpdateProgress() returns (filled: nat)
      requires Valid()
      modifies this
      ensures Valid()
      ensures filled == CountFilled(fields, values)
      ensures progressText == ProgressText(filled, CountRequiredInputs(fields))
      ensures values == old(values) && views == old(views) && busy == old(busy)
      ensures submitDisabled == old(submitDisabled) && banners == old(banners)
      ensures nextBannerId == old(nextBannerId) && effects == old(effects) && pending == old(pending)
    {
      filled := 0;
      var i := 0;
      while i < |fields|
        invariant 0 <= i <= |fields|
        invariant filled + CountFilled(fields[i..], values[i..]) == CountFilled(fields, values)
      {
        assert fields[i..][1..] == fields[i + 1..] && values[i..][1..] == values[i + 1..];
        if Counted(fields[i]) && !Blank(values[i]) {
          filled := filled + 1;
        }
        i := i + 1;
      }
      progressText := ProgressText(filled, CountRequiredInputs(fields));
    }

    /**
     * An `input` event on field i: the new value, then `clearFieldError`
     * and `updateCTAState`, then the progress update when field i is one of
     * the counted fields of the progress form.
     */
    method OnInput(i: nat, value: string)
      requires Valid() && i < |fields|
      modifies this
      ensures Valid()
      ensures values == old(values)[i := value]
      ensures views == old(views)[i := old(views[i]).(error := false, errorText := None)]
      ensures submitDisabled == if hasSubmitButton then !AllRequiredFilled(fields, values) else old(submitDisabled)
      ensures progressText == if ProgressActive() && Counted(fields[i])
                              then ProgressText(CountFilled(fields, values), CountRequiredInputs(fields))
                              else old(progressText)
      ensures busy == old(busy) && banners == old(banners)
      ensures nextBannerId == old(nextBannerId) && effects == old(effects) && pending == old(pending)
    {
      values := values[i := value];
      ClearFieldError(i);
      UpdateCTAState();
      if ProgressActive() && Counted(fields[i]) {
        var _ := UpdateProgress();
      }
    }

    /** A `blur` event on field i: `validateField`, then the progress update as for `input`. */
    method OnBlur(i: nat)
      requires Valid() && i < |fields|
      modifies this
      ensures Valid()
      ensures views == old(views)[i := Verdict(fields[i], values[i])]
      ensures progressText == if ProgressActive() && Counted(fields[i])
                              then ProgressText(CountFilled(fields, values), CountRequiredInputs(fields))
                              else old(progressText)
      ensures values == old(values) && submitDisabled == old(submitDisabled) && busy == old(busy)
      ensures banners == old(banners) && nextBannerId == old(nextBannerId) && effects == old(effects) && pending == old(pending)
    {
      var _ := ValidateField(i);
      if ProgressActive() && Counted(fields[i]) {
        var _ := UpdateProgress();
      }
    }

    /** `setFormLoading(form, isLoading)`: nothing without a submit button. */
    method SetFormLoading(isLoading: bool)
      requires Valid()
      modifies this
      ensures Valid()
      ensures hasSubmitButton ==> submitDisabled == isLoading && busy == isLoading
                                  && effects == old(effects) + [Loading(isLoading)]
      ensures !hasSubmitButton ==> submitDisabled == old(submitDisabled) && busy == old(busy)
                                   && effects == old(effects)
      ensures values == old(values) && views == old(views) && progressText == old(progressText)
      ensures banners == old(banners) && nextBannerId == old(nextBannerId) && pending == old(pending)
    {
      if !hasSubmitButton {
        return;
      }
      submitDisabled := isLoading;
      busy := isLoading;
      effects := effects + [Loading(isLoading)];
    }

    /**
     * `showFormMessage` as written: it looks for an old message inside the
     * form, but messages are inserted before the form, so none is ever found
     * and every call adds one more.
     */
    method ShowFormMessageAsWritten(kind: MessageKind, text: string)
      requires Valid()
      modifies this
      ensures Valid()
      ensures banners == old(banners) + [Banner(old(nextBannerId), kind, text)]
      ensures nextBannerId == old(nextBannerId) + 1
      ensures values == old(values) && views == old(views) && submitDisabled == old(submitDisabled)
      ensures busy == old(busy) && progressText == old(progressText) && effects == old(effects)
      ensures pending == old(pending)
    {
      banners := banners + [Banner(nextBannerId, kind, text)];
      nextBannerId := nextBannerId + 1;
    }

    /**
     * `showFormMessage` with the old message looked up where messages are
     * inserted, next to the form: the new message replaces it.
     */
    method ShowFormMessage(kind: MessageKind, text: string)
      requires Valid()
      modifies this
      ensures Valid()
      ensures banners == [Banner(old(nextBannerId), kind, text)]
      ensures nextBannerId == old(nextBannerId) + 1
      ensures values == old(values) && views == old(views) && submitDisabled == old(submitDisabled)
      ensures busy == old(busy) && progressText == old(progressText) && effects == old(effects)
      ensures pending == old(pending)
    {
      banners := [Banner(nextBannerId, kind, text)];
      nextBannerId := nextBannerId + 1;
    }

    /** The 5-second timer of message `id`: it removes the message if it is still shown. */
    method BannerTimeout(id: nat)
      requires Valid()
      modifies this
      ensures Valid()
      ensures banners == WithoutBanner(old(banners), id)
      ensures values == old(values) && views == old(views) && submitDisabled == old(submitDisabled)
      ensures busy == old(busy) && progressText == old(progressText)
      ensures nextBannerId == old(nextBannerId) && effects == old(effects) && pending == old(pending)
    {
      banners := WithoutBanner(banners, id);
    }

    /**
     * `handleFormSubmit` up to its `await`. An invalid form stops after
     * validation with the handler returning false and nothing sent. A valid
     * one sets the loading state and hands `formData` (what
     * `collectFormData` gathered) to `submitForm`; the submission is then in
     * flight until `SubmitCompleted` delivers its outcome. Other events,
     * including a second submission, may run in between.
     */
    method HandleFormSubmit(formData: GasIntegration.FormData) returns (returnedFalse: bool)
      requires Valid()
      modifies this
      ensures Valid()
      ensures returnedFalse <==> !AllRequiredValid(fields, old(values))
      ensures forall i :: 0 <= i < |fields| ==>
                views[i] == if fields[i].required then Verdict(fields[i], values[i]) else old(views[i])
      ensures values == old(values) && banners == old(banners) && nextBannerId == old(nextBannerId)
      ensures progressText == old(progressText)
      ensures returnedFalse ==> effects == old(effects) && pending == old(pending) && busy == old(busy)
                                && submitDisabled == if hasSubmitButton then !AllRequiredFilled(fields, values)
                                                     else old(submitDisabled)
      ensures !returnedFalse ==>
                && effects == old(effects) + (if hasSubmitButton then [Loading(true)] else []) + [Sent(formData)]
                && pending == old(pending) + 1
                && (hasSubmitButton ==> submitDisabled && busy)
    {
      UpdateCTAState();
      var ok := ValidateForm();
      if !ok {
        return true;
      }
      SetFormLoading(true);
      effects := effects + [Sent(formData)];
      pending := pending + 1;
      return false;
    }

    /**
     * The rest of `handleFormSubmit`, once the `submitForm` awaited by one
     * in-flight submission resolves: the outcome is shown through
     * `handleFormSuccess` or `handleFormError`, and the `finally` clause
     * clears the loading state. `outcomes` answers the lead client's attempts.
     */
    method SubmitCompleted(outcomes: seq<GasIntegration.Attempt>)
      requires Valid() && pending > 0 && |outcomes| == GasIntegration.MaxAttempts
      modifies this
      ensures Valid()
      ensures pending == old(pending) - 1
      ensures nextBannerId == old(nextBannerId) + 1
      ensures effects == old(effects) + (if hasSubmitButton then [Loading(false)] else [])
      ensures hasSubmitButton ==> !submitDisabled && !busy
      ensures !hasSubmitButton ==> submitDisabled == old(submitDisabled) && busy == old(busy)
      ensures progressText == old(progressText)
      ensures match SubmitForm(outcomes)
              case Submitted(message) =>
                && banners == old(banners) + [Banner(old(nextBannerId), SuccessMessage, message)]
                && values == defaults
                && |views| == |old(views)|
                && forall i :: 0 <= i < |views| ==> views[i] == FieldView(false, false, old(views[i]).errorText)
              case Rejected(error) =>
                && banners == old(banners) + [Banner(old(nextBannerId), ErrorMessage, error)]
                && values == old(values) && views == old(views)
    {
      var result := SubmitForm(outcomes);
      match result {
        case Submitted(message) =>
          HandleFormSuccess(message);
        case Rejected(error) =>
          HandleFormError(error);
      }
      SetFormLoading(false);
      pending := pending - 1;
    }

    /** `SubmitCompleted` with the corrected `showFormMessage`: the outcome's message is the only one shown. */
    method SubmitCompletedCorrected(outcomes: seq<GasIntegration.Attempt>)
      requires Valid() && pending > 0 && |outcomes| == GasIntegration.MaxAttempts
      modifies this
      ensures Valid()
      ensures pending == old(pending) - 1
      ensures nextBannerId == old(nextBannerId) + 1
      ensures effects == old(effects) + (if hasSubmitButton then [Loading(false)] else [])
      ensures hasSubmitButton ==> !submitDisabled && !busy
      ensures !hasSubmitButton ==> submitDisabled == old(submitDisabled) && busy == old(busy)
      ensures progressText == old(progressText)
      ensures match SubmitForm(outcomes)
              case Submitted(message) =>
                && banners == [Banner(old(nextBannerId), SuccessMessage, message)]
                && values == defaults
                && |views| == |old(views)|
                && forall i :: 0 <= i < |views| ==> views[i] == FieldView(false, false, old(views[i]).errorText)
              case Rejected(error) =>
                && banners == [Banner(old(nextBannerId), ErrorMessage, error)]
                && values == old(values) && views == old(views)
    {
      var result := SubmitForm(outcomes);
      match result {
        case Submitted(message) =>
          ShowFormMessage(SuccessMessage, message);
          ResetForm();
        case Rejected(error) =>
          ShowFormMessage(ErrorMessage, error);
      }
      SetFormLoading(false);
      pending := pending - 1;
    }

    /** `handleFormSuccess`: the message, then `ResetForm`. */
    method HandleFormSuccess(message: string)
      requires Valid()
      modifies this
      ensures Valid()
      ensures banners == old(banners) + [Banner(old(nextBannerId), SuccessMessage, message)]
      ensures nextBannerId == old(nextBannerId) + 1
      ensures values == defaults
      ensures |views| == |old(views)| && forall i :: 0 <= i < |views| ==>
                views[i] == FieldView(false, false, old(views[i]).errorText)
      ensures submitDisabled == old(submitDisabled) && busy == old(busy)
      ensures progressText == old(progressText) && effects == old(effects) && pending == old(pending)
    {
      ShowFormMessageAsWritten(SuccessMessage, message);
      ResetForm();
    }

    /** `handleFormError`: the error message; the fields keep their values and views. */
    method HandleFormError(error: string)
      requires Valid()
      modifies this
      ensures Valid()
      ensures banners == old(banners) + [Banner(old(nextBannerId), ErrorMessage, error)]
      ensures nextBannerId == old(nextBannerId) + 1
      ensures values == old(values) && views == old(views)
      ensures submitDisabled == old(submitDisabled) && busy == old(busy)
      ensures progressText == old(progressText) && effects == old(effects) && pending == old(pending)
    {
      ShowFormMessageAsWritten(ErrorMessage, error);
    }

    /**
     * `form.reset()` and the removal of both validation classes from every
     * field, as `handleFormSuccess` does them. Error elements are not
     * removed, and no `input` event fires, so the button and the progress
     * keep their state.
     */
    method ResetForm()
      requires Valid()
      modifies this
      ensures Valid()
      ensures values == defaults
      ensures |views| == |old(views)| && forall i :: 0 <= i < |views| ==>
                views[i] == FieldView(false, false, old(views[i]).errorText)
      ensures banners == old(banners) && nextBannerId == old(nextBannerId) && pending == old(pending)
      ensures submitDisabled == old(submitDisabled) && busy == old(busy)
      ensures progressText == old(progressText) && effects == old(effects) && pending == old(pending)
    {
      values := defaults;
      var i := 0;
      while i < |views|
        invariant 0 <= i <= |views| && Valid()
        invariant values == defaults && |views| == |old(views)|
        invariant banners == old(banners) && nextBannerId == old(nextBannerId)
        invariant submitDisabled == old(submitDisabled) && busy == old(busy)
        invariant progressText == old(progressText) && effects == old(effects) && pending == old(pending)
        invariant forall j :: 0 <= j < |views| ==>
                    views[j] == if j < i then FieldView(false, false, old(views[j]).errorText) else old(views[j])
      {
        views := views[i := views[i].(error := false, valid := false)];
        i := i + 1;
      }
    }
  }

  /** Every attempt of the lead client throws. */
  const AllThrew: seq<GasIntegration.Attempt> := [GasIntegration.Threw, GasIntegration.Threw, GasIntegration.Threw]

  /** With every attempt failing, the form reports the network error. */
  lemma AllThrewRejected()
    ensures SubmitForm(AllThrew) == Rejected(GasIntegration.NetworkErrorText)
  {
    assert forall k :: 0 <= k < GasIntegration.MaxAttempts ==> GasIntegration.Delivered(AllThrew[k]).None?;
  }

  /** Two failed submissions of a form as written leave both error messages on screen. */
  method MessagesAccumulateAsWritten() returns (shown: nat)
    ensures shown == 2
  {
    var form := new Form([], [], true, false);
    AllThrewRejected();
    var _ := form.HandleFormSubmit([]);
    form.SubmitCompleted(AllThrew);
    var _ := form.HandleFormSubmit([]);
    form.SubmitCompleted(AllThrew);
    shown := |form.banners|;
  }

  /** With the corrected lookup, the second message replaces the first. */
  method MessagesReplaced() returns (shown: nat)
    ensures shown == 1
  {
    var form := new Form([], [], true, false);
    AllThrewRejected();
    var _ := form.HandleFormSubmit([]);
    form.SubmitCompletedCorrected(AllThrew);
    var _ := form.HandleFormSubmit([]);
    form.SubmitCompletedCorrected(AllThrew);
    shown := |form.banners|;
  }

  /**
   * While a submission is in flight, typing into a field re-runs
   * `updateCTAState`, which enables the button again, and a second
   * submission can start before the first has completed.
   */
  method InputDuringSubmission(value: string) returns (busy: bool, disabled: bool, inFlight: nat)
    requires !Blank(value) && FieldIsValid(FieldConfig(TextArea, "", true, None, None, None), value)
    ensures busy && !disabled && inFlight == 2
  {
    var form := new Form([FieldConfig(TextArea, "", true, None, None, None)], [value], true, false);
    var rejected := form.HandleFormSubmit([]);
    assert !rejected;
    form.OnInput(0, value);
    busy, disabled := form.busy, form.submitDisabled;
    rejected := form.HandleFormSubmit([]);
    inFlight := form.pending;
  }
}
