/**
 Server-side form validation as WTForms performs it for the two declared forms:
 each field runs its validators in order, a failing `DataRequired` stops its
 field's chain (and replaces the errors gathered so far), and the form
 validates exactly when no field has an error.
 */
module Forms {

  import opened Strings

  /** Submitted form data: field name to its first submitted value. */
  type FormData = map<string, string>

  /** The validators the forms use, with their parameters. */
  datatype Validator =
    | Length(min: nat, max: nat)   // inclusive bounds on the number of characters
    | DataRequired                 // present and not only whitespace
    | EqualTo(other: string)       // same text as another field of the form

  /** A declared field and its validator chain. */
  datatype FieldSpec = FieldSpec(name: string, validators: seq<Validator>)

  /** A validator that failed on a field. */
  datatype FieldError = FieldError(field: string, failed: Validator)

  /** A field absent from the submission validates like the empty text. */
  function Data(form: FormData, field: string): string {
    if field in form then form[field] else ""
  }

  /** Whether a validator accepts the field's text. */
  predicate Passes(v: Validator, form: FormData, data: string) {
    match v
    case Length(min, max) => min <= |data| <= max
    case DataRequired => data != [] && Strip(data) != []
    case EqualTo(other) => data == Data(form, other)
  }

  /** The validator chain of one field; `acc` holds the failures found so far. */
  function RunChain(vs: seq<Validator>, form: FormData, data: string, acc: seq<Validator>): seq<Validator>
    decreases |vs|
  {
    if |vs| == 0 then acc
    else if Passes(vs[0], form, data) then RunChain(vs[1..], form, data, acc)
    else if vs[0].DataRequired? then [vs[0]]
    else RunChain(vs[1..], form, data, acc + [vs[0]])
  }

  /** The validators that reject one field of a submission. */
  function FieldFailures(f: FieldSpec, form: FormData): seq<Validator> {
    RunChain(f.validators, form, Data(form, f.name), [])
  }

  /** The errors of every field, in declaration order. */
  function Errors(fields: seq<FieldSpec>, form: FormData): seq<FieldError>
    decreases |fields|
  {
    if |fields| == 0 then []
    else
      var f := fields[0];
      var failed := FieldFailures(f, form);
      (seq(|failed|, i requires 0 <= i < |failed| => FieldError(f.name, failed[i]))) + Errors(fields[1..], form)
  }

  /** `form.validate()`. */
  predicate Validates(fields: seq<FieldSpec>, form: FormData) {
    Errors(fields, form) == []
  }

  /** A chain reports no failure exactly when it started with none and every
      validator in it passes. */
  lemma {:induction false} RunChainEmptyIff(vs: seq<Validator>, form: FormData, data: string, acc: seq<Validator>)
    ensures RunChain(vs, form, data, acc) == [] <==> acc == [] && forall j :: 0 <= j < |vs| ==> Passes(vs[j], form, data)
  {
    if |vs| > 0 {
      if Passes(vs[0], form, data) {
        RunChainEmptyIff(vs[1..], form, data, acc);
        assert forall j :: 1 <= j < |vs| ==> vs[j] == vs[1..][j - 1];
      } else if !vs[0].DataRequired? {
        RunChainEmptyIff(vs[1..], form, data, acc + [vs[0]]);
      }
    }
  }

  /** A form validates exactly when every validator of every field passes. */
  lemma {:induction false} ValidatesIffAllPass(fields: seq<FieldSpec>, form: FormData)
    ensures Validates(fields, form) <==>
      forall i, j :: 0 <= i < |fields| && 0 <= j < |fields[i].validators| ==>
        Passes(fields[i].validators[j], form, Data(form, fields[i].name))
  {
    if |fields| > 0 {
      var f := fields[0];
      RunChainEmptyIff(f.validators, form, Data(form, f.name), []);
      ValidatesIffAllPass(fields[1..], form);
      assert forall i :: 1 <= i < |fields| ==> fields[i] == fields[1..][i - 1];
    }
  }

  /** A form validates exactly when its first field has no failure and the
      remaining fields validate. */
  lemma ValidatesCons(fields: seq<FieldSpec>, form: FormData)
    requires |fields| > 0
    ensures Validates(fields, form) <==> FieldFailures(fields[0], form) == [] && Validates(fields[1..], form)
  {
  }

  /** A field's failures are the validators that reject its text, in order, except
      that a failing `DataRequired` is then reported alone. */
  lemma {:induction false} RunChainReportsFailures(vs: seq<Validator>, form: FormData, data: string, acc: seq<Validator>)
    ensures forall v :: v in RunChain(vs, form, data, acc) ==> v in acc || (v in vs && !Passes(v, form, data))
    ensures DataRequired in vs && !Passes(DataRequired, form, data) ==> RunChain(vs, form, data, acc) == [DataRequired]
  {
    if |vs| > 0 {
      if Passes(vs[0], form, data) {
        RunChainReportsFailures(vs[1..], form, data, acc);
      } else if !vs[0].DataRequired? {
        RunChainReportsFailures(vs[1..], form, data, acc + [vs[0]]);
      }
    }
  }

  /** `RegisterForm`: name 1..25, username 4..25, email 6..50 characters, a
      non-blank password equal to `confirm`; `confirm` has no validator of its own. */
  const RegisterFields: seq<FieldSpec> := [
    FieldSpec("name", [Length(1, 25)]),
    FieldSpec("username", [Length(4, 25)]),
    FieldSpec("email", [Length(6, 50)]),
    FieldSpec("password", [DataRequired, EqualTo("confirm")]),
    FieldSpec("confirm", [])
  ]

  /** `ArticleForm`: firstname 1..22, lastname 2..22, CIN 3..13 characters. */
  const ArticleFields: seq<FieldSpec> := [
    FieldSpec("firstname", [Length(1, 22)]),
    FieldSpec("lastname", [Length(2, 22)]),
    FieldSpec("CIN", [Length(3, 13)])
  ]

  /** The registration form is accepted exactly under its declared bounds, with a
      password that is not blank and matches the confirmation. */
  lemma RegisterValidatesIff(form: FormData)
    ensures Validates(RegisterFields, form) <==>
      && 1 <= |Data(form, "name")| <= 25
      && 4 <= |Data(form, "username")| <= 25
      && 6 <= |Data(form, "email")| <= 50
      && !Blank(Data(form, "password"))
      && Data(form, "password") == Data(form, "confirm")
  {
    var fs := RegisterFields;
    ValidatesCons(fs, form);
    ValidatesCons(fs[1..], form);
    ValidatesCons(fs[2..], form);
    ValidatesCons(fs[3..], form);
    ValidatesCons(fs[4..], form);
    assert fs[1..][1..] == fs[2..] && fs[2..][1..] == fs[3..] && fs[3..][1..] == fs[4..] && fs[4..][1..] == [];
    PasswordFailures(form);
  }

  /** The password field reports a blank password only as missing, never as a
      mismatch, and a non-blank one as a mismatch exactly when it differs from
      the confirmation. */
  lemma PasswordFailures(form: FormData)
    ensures Blank(Data(form, "password")) ==> FieldFailures(RegisterFields[3], form) == [DataRequired]
    ensures !Blank(Data(form, "password")) && Data(form, "password") != Data(form, "confirm") ==>
      FieldFailures(RegisterFields[3], form) == [EqualTo("confirm")]
    ensures !Blank(Data(form, "password")) && Data(form, "password") == Data(form, "confirm") ==>
      FieldFailures(RegisterFields[3], form) == []
  {
    var p := Data(form, "password");
    StripEmptyIffBlank(p);
  }

  /** The article form is accepted exactly under its declared bounds. */
  lemma ArticleValidatesIff(form: FormData)
    ensures Validates(ArticleFields, form) <==>
      && 1 <= |Data(form, "firstname")| <= 22
      && 2 <= |Data(form, "lastname")| <= 22
      && 3 <= |Data(form, "CIN")| <= 13
  {
    var fs := ArticleFields;
    ValidatesCons(fs, form);
    ValidatesCons(fs[1..], form);
    ValidatesCons(fs[2..], form);
    assert fs[1..][1..] == fs[2..] && fs[2..][1..] == [];
  }
}
