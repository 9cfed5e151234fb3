/**
 * The three WTForms forms of Flask Cafe. Each form is a list of fields and
 * each field a list of validators, as the class bodies declare them; a
 * field is checked the way WTForms runs a validator chain, and a form is
 * valid when no field reports an error. The `URL()` and `Email()` checks
 * are library code and come in as predicates.
 */
module Forms {
  import opened Strings
  import opened Ordering
  import opened Models

  /** Submitted form data: field name to raw text; a missing field reads as "". */
  type FormData = map<string, string>

  function Value(data: FormData, name: string): string
  {
    if name in data then data[name] else ""
  }

  /** The library validators the forms use. */
  datatype Validator = DataRequired | Optional | Url | Email | MinLength(min: nat)

  datatype FieldError = Required | InvalidUrl | InvalidEmail | TooShort(min: nat) | NotAValidChoice

  /** `StringField`/`TextAreaField` carry text; a `SelectField` must hold one of its choices. */
  datatype FieldKind = Text | Select

  datatype Field = Field(name: string, kind: FieldKind, validators: seq<Validator>)

  /** The library's URL and e-mail syntax checks, which the model does not interpret. */
  datatype FormatChecks = FormatChecks(isUrl: string -> bool, isEmail: string -> bool)

  /**
   * The validator chain on one value, starting from the errors found so
   * far: a failing `DataRequired` clears them and stops with its own error;
   * `Optional` on a blank value clears them and stops silently; the other
   * validators add their error and let the chain go on.
   */
  function RunChain(vs: seq<Validator>, v: string, errors: seq<FieldError>, checks: FormatChecks): (r: seq<FieldError>)
    ensures r == [] || r == [Required] || errors <= r
    ensures Optional !in vs && errors != [] ==> r != []
    decreases |vs|
  {
    if vs == [] then errors
    else match vs[0]
      case DataRequired => if Filled(v) then RunChain(vs[1..], v, errors, checks) else [Required]
      case Optional => if Blank(v) then [] else RunChain(vs[1..], v, errors, checks)
      case Url => RunChain(vs[1..], v, if checks.isUrl(v) then errors else errors + [InvalidUrl], checks)
      case Email => RunChain(vs[1..], v, if checks.isEmail(v) then errors else errors + [InvalidEmail], checks)
      case MinLength(m) => RunChain(vs[1..], v, if |v| < m then errors + [TooShort(m)] else errors, checks)
  }

  /** The errors of one field: the choice check of a select field, then its chain. */
  function FieldErrors(f: Field, data: FormData, codes: set<string>, checks: FormatChecks): (r: seq<FieldError>)
    ensures f.kind == Select && Value(data, f.name) !in codes && Optional !in f.validators ==> r != []
  {
    var v := Value(data, f.name);
    var pre := if f.kind == Select && v !in codes then [NotAValidChoice] else [];
    RunChain(f.validators, v, pre, checks)
  }

  /** `form.validate()`: every field is free of errors (`codes` are the select field's choices). */
  predicate FormValid(fields: seq<Field>, data: FormData, codes: set<string>, checks: FormatChecks)
    ensures FormValid(fields, data, codes, checks) ==>
      forall i :: 0 <= i < |fields| && fields[i].kind == Select && Optional !in fields[i].validators ==>
        Value(data, fields[i].name) in codes
  {
    forall i :: 0 <= i < |fields| ==> FieldErrors(fields[i], data, codes, checks) == []
  }

  /** `CafeForm`. */
  const CafeForm: seq<Field> := [
    Field("name", Text, [DataRequired]),
    Field("description", Text, [Optional]),
    Field("url", Text, [Optional, Url]),
    Field("address", Text, [DataRequired]),
    Field("city_code", Select, []),
    Field("image_url", Text, [Optional, Url])
  ]

  /** `SignupForm`. */
  const SignupForm: seq<Field> := [
    Field("username", Text, [DataRequired]),
    Field("first_name", Text, [DataRequired]),
    Field("last_name", Text, [DataRequired]),
    Field("description", Text, [Optional]),
    Field("email", Text, [DataRequired, Email]),
    Field("password", Text, [DataRequired, MinLength(6)]),
    Field("image_url", Text, [Optional, Url])
  ]

  /** `LoginForm`. */
  const LoginForm: seq<Field> := [
    Field("username", Text, [DataRequired]),
    Field("password", Text, [DataRequired])
  ]

  /** A URL-checked field that may be left empty: blank, or a URL. */
  ghost predicate OptionalUrl(v: string, checks: FormatChecks)
  {
    Blank(v) || checks.isUrl(v)
  }

  /** When `CafeForm` accepts its data, in plain terms: name and address filled, a known city, URLs only where given. */
  lemma {:induction false} CafeFormValidIff(data: FormData, codes: set<string>, checks: FormatChecks)
    ensures FormValid(CafeForm, data, codes, checks) <==>
      && Filled(Value(data, "name"))
      && OptionalUrl(Value(data, "url"), checks)
      && Filled(Value(data, "address"))
      && Value(data, "city_code") in codes
      && OptionalUrl(Value(data, "image_url"), checks)
  {
    var f := CafeForm;
    assert FieldErrors(f[0], data, codes, checks) == [] <==> Filled(Value(data, "name"));
    assert FieldErrors(f[1], data, codes, checks) == [];
    assert FieldErrors(f[2], data, codes, checks) == [] <==> OptionalUrl(Value(data, "url"), checks);
    assert FieldErrors(f[3], data, codes, checks) == [] <==> Filled(Value(data, "address"));
    assert FieldErrors(f[4], data, codes, checks) == [] <==> Value(data, "city_code") in codes;
    assert FieldErrors(f[5], data, codes, checks) == [] <==> OptionalUrl(Value(data, "image_url"), checks);
  }

  /** A blank name or a blank address makes `CafeForm` invalid. */
  lemma CafeFormRequiresNameAndAddress(data: FormData, codes: set<string>, checks: FormatChecks)
    requires Blank(Value(data, "name")) || Blank(Value(data, "address"))
    ensures !FormValid(CafeForm, data, codes, checks)
  {
    CafeFormValidIff(data, codes, checks);
  }

  /**
   * Description, URL and image URL may be left empty: emptying them never
   * turns valid data invalid, whatever the URL check says.
   */
  lemma CafeFormOptionalFields(data: FormData, codes: set<string>, checks: FormatChecks)
    requires Filled(Value(data, "name")) && Filled(Value(data, "address")) && Value(data, "city_code") in codes
    ensures FormValid(CafeForm, data["description" := ""]["url" := ""]["image_url" := ""], codes, checks)
  {
    var d := data["description" := ""]["url" := ""]["image_url" := ""];
    assert Value(d, "name") == Value(data, "name");
    assert Value(d, "address") == Value(data, "address");
    assert Value(d, "city_code") == Value(data, "city_code");
    CafeFormValidIff(d, codes, checks);
  }

  /** When `SignupForm` accepts its data: four filled fields, a valid e-mail, a password of six characters or more. */
  lemma {:induction false} SignupFormValidIff(data: FormData, codes: set<string>, checks: FormatChecks)
    ensures FormValid(SignupForm, data, codes, checks) <==>
      && Filled(Value(data, "username"))
      && Filled(Value(data, "first_name"))
      && Filled(Value(data, "last_name"))
      && Filled(Value(data, "email")) && checks.isEmail(Value(data, "email"))
      && Filled(Value(data, "password")) && |Value(data, "password")| >= 6
      && OptionalUrl(Value(data, "image_url"), checks)
  {
    var f := SignupForm;
    assert FieldErrors(f[0], data, codes, checks) == [] <==> Filled(Value(data, "username"));
    assert FieldErrors(f[1], data, codes, checks) == [] <==> Filled(Value(data, "first_name"));
    assert FieldErrors(f[2], data, codes, checks) == [] <==> Filled(Value(data, "last_name"));
    assert FieldErrors(f[3], data, codes, checks) == [];
    assert FieldErrors(f[4], data, codes, checks) == [] <==>
      Filled(Value(data, "email")) && checks.isEmail(Value(data, "email"));
    assert FieldErrors(f[5], data, codes, checks) == [] <==>
      Filled(Value(data, "password")) && |Value(data, "password")| >= 6;
    assert FieldErrors(f[6], data, codes, checks) == [] <==> OptionalUrl(Value(data, "image_url"), checks);
  }

  /**
   * A password shorter than six characters, an email the e-mail check
   * refuses, or a blank required field makes `SignupForm` invalid.
   */
  lemma SignupFormRejects(data: FormData, codes: set<string>, checks: FormatChecks)
    requires || |Value(data, "password")| < 6 || !checks.isEmail(Value(data, "email"))
             || Blank(Value(data, "username")) || Blank(Value(data, "first_name"))
             || Blank(Value(data, "last_name")) || Blank(Value(data, "email"))
    ensures !FormValid(SignupForm, data, codes, checks)
  {
    SignupFormValidIff(data, codes, checks);
  }

  /** `LoginForm` accepts its data exactly when username and password are both filled. */
  lemma {:induction false} LoginFormValidIff(data: FormData, codes: set<string>, checks: FormatChecks)
    ensures FormValid(LoginForm, data, codes, checks) <==>
      Filled(Value(data, "username")) && Filled(Value(data, "password"))
  {
    var f := LoginForm;
    assert FieldErrors(f[0], data, codes, checks) == [] <==> Filled(Value(data, "username"));
    assert FieldErrors(f[1], data, codes, checks) == [] <==> Filled(Value(data, "password"));
  }

  /** A city as a choice of the city drop-down: `(code, name)`. */
  function Choice(c: City): (string, string)
  {
    (c.code, c.name)
  }

  function ChoiceCode(p: (string, string)): string
  {
    p.0
  }

  /** The choices of the rows, in table order. */
  function Choices(cities: seq<City>): seq<(string, string)>
  {
    seq(|cities|, i requires 0 <= i < |cities| => Choice(cities[i]))
  }

  /** The codes a set of choices offers. */
  function ChoiceCodes(choices: seq<(string, string)>): set<string>
  {
    set p | p in choices :: p.0
  }

  /** `get_city_choices`: one `(code, name)` pair per city, ordered by code. */
  function CityChoices(cities: seq<City>): (r: seq<(string, string)>)
    ensures SortedBy(r, ChoiceCode)
    ensures multiset(r) == multiset(Choices(cities))
  {
    SortBySorted(Choices(cities), ChoiceCode);
    SortByPermutation(Choices(cities), ChoiceCode);
    SortBy(Choices(cities), ChoiceCode)
  }

  /**
   * The choices hold one pair per city and offer exactly the table's codes.
   */
  lemma CityChoicesSpec(cities: seq<City>)
    ensures |CityChoices(cities)| == |cities|
    ensures ChoiceCodes(CityChoices(cities)) == CityCodes(cities)
  {
    var r := CityChoices(cities);
    assert |r| == |multiset(r)| == |multiset(Choices(cities))| == |Choices(cities)|;
    forall code | code in CityCodes(cities) ensures code in ChoiceCodes(r) {
      var c :| c in cities && c.code == code;
      var i :| 0 <= i < |cities| && cities[i] == c;
      assert Choices(cities)[i] == Choice(c);
      assert Choice(c) in multiset(r);
    }
    forall code | code in ChoiceCodes(r) ensures code in CityCodes(cities) {
      var p :| p in r && p.0 == code;
      assert p in multiset(Choices(cities));
      var i :| 0 <= i < |Choices(cities)| && Choices(cities)[i] == p;
      assert cities[i].code == code;
    }
  }

  /** The outcome of calling `get_city_choices`: its list, or the `TypeError` of a wrong argument count. */
  datatype ChoicesCall = Returned(choices: seq<(string, string)>) | TypeError

  /**
   * A call of `get_city_choices` with `positionalArgs` arguments. The method
   * is declared with the one parameter `self`, which it does not use.
   */
  function CallGetCityChoices(positionalArgs: nat, cities: seq<City>): (r: ChoicesCall)
    ensures r.Returned? <==> positionalArgs == 1
  {
    if positionalArgs == 1 then Returned(CityChoices(cities)) else TypeError
  }

  /**
   * `CafeForm.get_city_choices()` names the method on the class, so no
   * `self` is bound and the call has no argument: it raises, whatever the
   * cities table holds. Called on a form instance it returns the choices.
   */
  lemma ClassCallRaises(cities: seq<City>)
    ensures CallGetCityChoices(0, cities) == TypeError
    ensures CallGetCityChoices(1, cities) == Returned(CityChoices(cities))
  {
  }

  /**
   * With `code` a primary key of the cities table, no two choices share a
   * code, so the drop-down offers each city once.
   */
  lemma CityChoicesDistinctCodes(cities: seq<City>)
    requires DistinctCodes(cities)
    ensures forall i, j :: 0 <= i < j < |CityChoices(cities)| ==> CityChoices(cities)[i].0 != CityChoices(cities)[j].0
  {
    var r, s := CityChoices(cities), Choices(cities);
    assert NoDuplicates(s) by {
      forall a, b | 0 <= a < b < |s| ensures s[a] != s[b] {
        assert s[a].0 == cities[a].code && s[b].0 == cities[b].code;
      }
    }
    NoDuplicatesPermutation(s, r);
    forall i, j | 0 <= i < j < |r| ensures r[i].0 != r[j].0 {
      assert r[i] in multiset(s) && r[j] in multiset(s);
      var a :| 0 <= a < |s| && s[a] == r[i];
      var b :| 0 <= b < |s| && s[b] == r[j];
      assert a != b;
      assert s[a].0 == cities[a].code && s[b].0 == cities[b].code;
    }
  }

  /** The choices of the test suite's one-city table. */
  lemma CityChoicesExample()
    ensures CityChoices([City("sf", "San Francisco", "CA")]) == [("sf", "San Francisco")]
  {
  }
}
