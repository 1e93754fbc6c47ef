/**
  Request validation (package `validators`), modelled on the go-playground
  validator's struct walk: the fields of a request struct are visited in
  declaration order; for each field the rules of its `validate` tag are tried
  left to right and the first failing one is recorded, and the validator
  returns nil when no field failed, else the recorded errors in field order.

  The email syntax check is the library's regular expression; it is a
  parameter `isEmail` here.
 */
module Validators {
  import opened Errors
  import opened Strings

  /** A field value: the validators hold strings and integers. */
  datatype Value = Text(s: string) | Number(n: int)

  /** The rules used in the three `validate` struct tags. */
  datatype Rule = Required | Email | Min(n: nat) | Gt(n: nat)

  /** One struct field with the rules of its tag, in tag order. */
  datatype Field = Field(name: string, value: Value, rules: seq<Rule>)

  /** `validator.FieldError`: the field name, the failing tag and the tag's parameter. */
  datatype FieldError = FieldError(field: string, tag: string, param: string)

  /** The error `Validate` can return: the per-field errors, or a misuse of the validator itself. */
  datatype ValidateError = ValidationErrors(errs: seq<FieldError>) | InvalidValidation

  /** The minimum password length the Login and Register tags demand (`min=8`). */
  const MinPasswordLength: nat := 8

  function Tag(r: Rule): (tag: string)
    ensures All(tag, IsLower)
  {
    match r
    case Required => "required"
    case Email => "email"
    case Min(_) => "min"
    case Gt(_) => "gt"
  }

  function Param(r: Rule): (param: string)
    ensures All(param, IsDigit)
  {
    match r
    case Min(n) => NatToString(n)
    case Gt(n) => NatToString(n)
    case _ => ""
  }

  /**
    Whether a value satisfies a rule: `required` rejects the zero value; for
    strings `min` and `gt` compare the character count, for integers the value.
    A rule that makes no sense for an integer (`email`) rejects it.
   */
  predicate Passes(r: Rule, v: Value, isEmail: string -> bool) {
    match r
    case Required => if v.Text? then v.s != "" else v.n != 0
    case Email => v.Text? && isEmail(v.s)
    case Min(n) => if v.Text? then |v.s| >= n else v.n >= n
    case Gt(n) => if v.Text? then |v.s| > n else v.n > n
  }

  /** The index of the first element of `s` with property `p`, or `|s|` when there is none. */
  function FirstWhere<T>(s: seq<T>, p: T -> bool): (k: nat)
    ensures k <= |s|
    ensures forall j :: 0 <= j < k ==> !p(s[j])
    ensures k < |s| ==> p(s[k])
  {
    if s == [] then 0
    else if p(s[0]) then 0
    else 1 + FirstWhere(s[1..], p)
  }

  /** The error recorded for one field: its first failing rule, if any. */
  function Check(f: Field, isEmail: string -> bool): (r: Option<FieldError>)
    ensures r.None? <==> forall j :: 0 <= j < |f.rules| ==> Passes(f.rules[j], f.value, isEmail)
    ensures r.Some? ==> r.value.field == f.name
    ensures r.Some? ==> All(r.value.tag, IsLower) && All(r.value.param, IsDigit)
  {
    var k := FirstWhere(f.rules, (rule: Rule) => !Passes(rule, f.value, isEmail));
    if k < |f.rules| then Some(FieldError(f.name, Tag(f.rules[k]), Param(f.rules[k]))) else None
  }

  /** A field's error names the first rule of its tag that the value fails, with that rule's parameter. */
  lemma CheckReportsFirstFailingRule(f: Field, isEmail: string -> bool)
    ensures Check(f, isEmail).Some? ==>
      exists k :: 0 <= k < |f.rules| && !Passes(f.rules[k], f.value, isEmail)
        && (forall j :: 0 <= j < k ==> Passes(f.rules[j], f.value, isEmail))
        && Check(f, isEmail).value.tag == Tag(f.rules[k]) && Check(f, isEmail).value.param == Param(f.rules[k])
  {
    var k := FirstWhere(f.rules, (rule: Rule) => !Passes(rule, f.value, isEmail));
    assert k < |f.rules| ==> !Passes(f.rules[k], f.value, isEmail);
  }

  /** The index of the first field that fails a rule, or `|fields|`. */
  function FirstInvalid(fields: seq<Field>, isEmail: string -> bool): (k: nat)
    ensures k <= |fields|
    ensures forall j :: 0 <= j < k ==> Check(fields[j], isEmail).None?
    ensures k < |fields| ==> Check(fields[k], isEmail).Some?
  {
    FirstWhere(fields, (f: Field) => Check(f, isEmail).Some?)
  }

  /**
    The errors of a struct walk, one per failing field, in field order. They
    are empty exactly when every field passes; otherwise the first one is the
    error of the first failing field and the others are the errors of the
    fields after it, so no field is reported twice and none is skipped.
   */
  function FieldErrors(fields: seq<Field>, isEmail: string -> bool): (errs: seq<FieldError>)
    ensures |errs| <= |fields|
    ensures errs == [] <==> FirstInvalid(fields, isEmail) == |fields|
    ensures errs != [] ==> Some(errs[0]) == Check(fields[FirstInvalid(fields, isEmail)], isEmail)
  {
    if fields == [] then []
    else
      var head := Check(fields[0], isEmail);
      var rest := FieldErrors(fields[1..], isEmail);
      assert FirstInvalid(fields, isEmail) ==
        if head.Some? then 0 else 1 + FirstInvalid(fields[1..], isEmail);
      if head.Some? then [head.value] + rest else rest
  }

  /**
    The struct walk reports each failing field exactly once, in field order:
    after the first failing field's error come the errors of the fields after it.
   */
  lemma {:induction false} FieldErrorsInFieldOrder(fields: seq<Field>, isEmail: string -> bool)
    ensures var errs := FieldErrors(fields, isEmail);
      errs != [] ==> errs[1..] == FieldErrors(fields[FirstInvalid(fields, isEmail) + 1..], isEmail)
  {
    if fields != [] {
      var rest := FieldErrors(fields[1..], isEmail);
      var k := FirstInvalid(fields, isEmail);
      assert k == if Check(fields[0], isEmail).Some? then 0 else 1 + FirstInvalid(fields[1..], isEmail);
      if Check(fields[0], isEmail).Some? {
        assert fields[k + 1..] == fields[1..];
      } else {
        FieldErrorsInFieldOrder(fields[1..], isEmail);
        assert rest != [] ==> fields[k + 1..] == fields[1..][FirstInvalid(fields[1..], isEmail) + 1..];
      }
    }
  }

  /** Every error of the struct walk is the error of one of its fields. */
  lemma {:induction false} FieldErrorsComeFromFields(fields: seq<Field>, isEmail: string -> bool, i: nat)
    requires i < |FieldErrors(fields, isEmail)|
    ensures exists j :: 0 <= j < |fields| && Check(fields[j], isEmail) == Some(FieldErrors(fields, isEmail)[i])
  {
    var errs := FieldErrors(fields, isEmail);
    var rest := FieldErrors(fields[1..], isEmail);
    if Check(fields[0], isEmail).Some? && i == 0 {
      assert Check(fields[0], isEmail) == Some(errs[i]);
    } else {
      var i' := if Check(fields[0], isEmail).Some? then i - 1 else i;
      assert errs[i] == rest[i'];
      FieldErrorsComeFromFields(fields[1..], isEmail, i');
      var j :| 0 <= j < |fields[1..]| && Check(fields[1..][j], isEmail) == Some(rest[i']);
      assert Check(fields[j + 1], isEmail) == Some(errs[i]);
    }
  }

  /** `validate.Struct`: nil when every field passes, else the field errors. */
  function ValidateStruct(fields: seq<Field>, isEmail: string -> bool): (r: Option<ValidateError>)
    ensures r.None? <==> forall j :: 0 <= j < |fields| ==> Check(fields[j], isEmail).None?
    ensures r.Some? ==> r.value.ValidationErrors? && |r.value.errs| > 0
    ensures r.Some? ==> Some(r.value.errs[0]) == Check(fields[FirstInvalid(fields, isEmail)], isEmail)
  {
    var errs := FieldErrors(fields, isEmail);
    if errs == [] then None else Some(ValidationErrors(errs))
  }

  /** The email rule pair `required,email`. */
  predicate EmailOk(email: string, isEmail: string -> bool) {
    email != "" && isEmail(email)
  }

  /** The password rule pair `required,min=8`. */
  predicate PasswordOk(password: string) {
    password != "" && |password| >= MinPasswordLength
  }

  /** The `Email` field of the Login and Register validators. */
  function EmailField(email: string): Field {
    Field("Email", Text(email), [Required, Email])
  }

  /** The `Password` field of the Login and Register validators. */
  function PasswordField(password: string): Field {
    Field("Password", Text(password), [Required, Min(MinPasswordLength)])
  }

  /** An ID field tagged `required,gt=0` (`AppID`, `UserID`). */
  function IdField(name: string, id: int): Field {
    Field(name, Number(id), [Required, Gt(0)])
  }

  lemma EmailFieldChecks(email: string, isEmail: string -> bool)
    ensures Check(EmailField(email), isEmail).None? <==> EmailOk(email, isEmail)
  {
  }

  lemma PasswordFieldChecks(password: string, isEmail: string -> bool)
    ensures Check(PasswordField(password), isEmail).None? <==> PasswordOk(password)
  {
    var f := PasswordField(password);
    assert Passes(f.rules[0], f.value, isEmail) <==> password != "";
    assert Passes(f.rules[1], f.value, isEmail) <==> |password| >= MinPasswordLength;
  }

  lemma IdFieldChecks(name: string, id: int, isEmail: string -> bool)
    ensures Check(IdField(name, id), isEmail).None? <==> id > 0
  {
    var f := IdField(name, id);
    assert Passes(f.rules[0], f.value, isEmail) <==> id != 0;
    assert Passes(f.rules[1], f.value, isEmail) <==> id > 0;
  }

  /** A struct of three fields passes exactly when each of the three does. */
  lemma ThreeFieldsPass(fs: seq<Field>, isEmail: string -> bool)
    requires |fs| == 3
    ensures ValidateStruct(fs, isEmail).None? <==>
      Check(fs[0], isEmail).None? && Check(fs[1], isEmail).None? && Check(fs[2], isEmail).None?
  {
    assert (forall j :: 0 <= j < |fs| ==> Check(fs[j], isEmail).None?) <==>
      Check(fs[0], isEmail).None? && Check(fs[1], isEmail).None? && Check(fs[2], isEmail).None?;
  }

  /** `LoginValidator`, built by `ToLoginValidator`, which copies its arguments unchanged. */
  datatype LoginValidator = LoginValidator(email: string, password: string, appID: int) {
    function Fields(): seq<Field> {
      [EmailField(email), PasswordField(password), IdField("AppID", appID)]
    }

    /** A Login request passes exactly when the email and password rules hold and the app ID is positive. */
    function Validate(isEmail: string -> bool): (r: Option<ValidateError>)
      ensures r.None? <==> EmailOk(email, isEmail) && PasswordOk(password) && appID > 0
      ensures r.Some? ==> r.value.ValidationErrors? && |r.value.errs| > 0
    {
      EmailFieldChecks(email, isEmail);
      PasswordFieldChecks(password, isEmail);
      IdFieldChecks("AppID", appID, isEmail);
      ThreeFieldsPass(Fields(), isEmail);
      ValidateStruct(Fields(), isEmail)
    }
  }

  /** `RegisterValidator`, built by `ToRegisterValidator`: the Login rules without an app ID. */
  datatype RegisterValidator = RegisterValidator(email: string, password: string) {
    function Fields(): seq<Field> {
      [EmailField(email), PasswordField(password)]
    }

    /** A Register request passes exactly when the email and password rules hold. */
    function Validate(isEmail: string -> bool): (r: Option<ValidateError>)
      ensures r.None? <==> EmailOk(email, isEmail) && PasswordOk(password)
      ensures r.Some? ==> r.value.ValidationErrors? && |r.value.errs| > 0
    {
      EmailFieldChecks(email, isEmail);
      PasswordFieldChecks(password, isEmail);
      ValidateStruct(Fields(), isEmail)
    }
  }

  /** `IsAdminValidator`, built by `ToIsAdminValidator`. */
  datatype IsAdminValidator = IsAdminValidator(userID: int) {
    function Fields(): seq<Field> {
      [IdField("UserID", userID)]
    }

    /** An IsAdmin request passes exactly when the user ID is positive. */
    function Validate(isEmail: string -> bool): (r: Option<ValidateError>)
      ensures r.None? <==> userID > 0
      ensures r.Some? ==> r.value.ValidationErrors? && |r.value.errs| > 0
    {
      IdFieldChecks("UserID", userID, isEmail);
      ValidateStruct(Fields(), isEmail)
    }
  }

  /** The first error a failed validation reports. */
  function FirstError(e: ValidateError): FieldError
    requires e.ValidationErrors? && |e.errs| > 0
  {
    e.errs[0]
  }

  // Exact outcome of each field, by rule order.

  lemma EmailFieldError(email: string, isEmail: string -> bool)
    ensures Check(EmailField(email), isEmail) ==
      if email == "" then Some(FieldError("Email", "required", ""))
      else if !isEmail(email) then Some(FieldError("Email", "email", ""))
      else None
  {
  }

  lemma PasswordFieldError(password: string, isEmail: string -> bool)
    ensures Check(PasswordField(password), isEmail) ==
      if password == "" then Some(FieldError("Password", "required", ""))
      else if |password| < MinPasswordLength then Some(FieldError("Password", "min", "8"))
      else None
  {
    var f := PasswordField(password);
    var p := (rule: Rule) => !Passes(rule, f.value, isEmail);
    assert NatToString(MinPasswordLength) == "8";
    assert FirstWhere(f.rules, p) == if password == "" then 0 else if |password| < MinPasswordLength then 1 else 2 by {
      if password != "" {
        assert f.rules[1..] == [Min(MinPasswordLength)];
        assert |password| >= MinPasswordLength ==> FirstWhere([Min(MinPasswordLength)], p) == 1 by {
          assert [Min(MinPasswordLength)][1..] == [];
        }
      }
    }
  }

  /** A zero ID fails `required` first; a negative one passes `required` and fails `gt=0`. */
  lemma IdFieldError(name: string, id: int, isEmail: string -> bool)
    ensures Check(IdField(name, id), isEmail) ==
      if id == 0 then Some(FieldError(name, "required", ""))
      else if id < 0 then Some(FieldError(name, "gt", "0"))
      else None
  {
  }

  /**
    The error a Login request reports, read off the rules in field and tag
    order: the email, then the password (at least eight characters), then the
    app ID (zero fails `required`, a negative ID fails `gt=0`).
   */
  function LoginRuleOrder(email: string, password: string, appID: int, isEmail: string -> bool): Option<FieldError> {
    if email == "" then Some(FieldError("Email", "required", ""))
    else if !isEmail(email) then Some(FieldError("Email", "email", ""))
    else if password == "" then Some(FieldError("Password", "required", ""))
    else if |password| < 8 then Some(FieldError("Password", "min", "8"))
    else if appID == 0 then Some(FieldError("AppID", "required", ""))
    else if appID < 0 then Some(FieldError("AppID", "gt", "0"))
    else None
  }

  /** The same order for a Register request, which has no app ID. */
  function RegisterRuleOrder(email: string, password: string, isEmail: string -> bool): Option<FieldError> {
    LoginRuleOrder(email, password, 1, isEmail)
  }

  /** The first error of a struct of two or three fields is that of its first failing field. */
  lemma FirstOfThree(fs: seq<Field>, isEmail: string -> bool)
    requires |fs| == 3
    ensures ValidateStruct(fs, isEmail).Some? ==>
      Some(FirstError(ValidateStruct(fs, isEmail).value)) ==
        (if Check(fs[0], isEmail).Some? then Check(fs[0], isEmail)
         else if Check(fs[1], isEmail).Some? then Check(fs[1], isEmail)
         else Check(fs[2], isEmail))
  {
  }

  lemma FirstOfTwo(fs: seq<Field>, isEmail: string -> bool)
    requires |fs| == 2
    ensures ValidateStruct(fs, isEmail).Some? ==>
      Some(FirstError(ValidateStruct(fs, isEmail).value)) ==
        (if Check(fs[0], isEmail).Some? then Check(fs[0], isEmail) else Check(fs[1], isEmail))
  {
  }

  /** A Login request fails exactly when the rule order finds a failure, and reports that failure first. */
  lemma LoginFirstError(email: string, password: string, appID: int, isEmail: string -> bool)
    ensures var r := LoginValidator(email, password, appID).Validate(isEmail);
      if LoginRuleOrder(email, password, appID, isEmail).None? then r.None?
      else r.Some? && Some(FirstError(r.value)) == LoginRuleOrder(email, password, appID, isEmail)
  {
    var v := LoginValidator(email, password, appID);
    EmailFieldError(email, isEmail);
    PasswordFieldError(password, isEmail);
    IdFieldError("AppID", appID, isEmail);
    FirstOfThree(v.Fields(), isEmail);
  }

  lemma RegisterFirstError(email: string, password: string, isEmail: string -> bool)
    ensures var r := RegisterValidator(email, password).Validate(isEmail);
      if RegisterRuleOrder(email, password, isEmail).None? then r.None?
      else r.Some? && Some(FirstError(r.value)) == RegisterRuleOrder(email, password, isEmail)
  {
    EmailFieldError(email, isEmail);
    PasswordFieldError(password, isEmail);
    FirstOfTwo(RegisterValidator(email, password).Fields(), isEmail);
  }

  lemma IsAdminFirstError(userID: int, isEmail: string -> bool)
    ensures userID > 0 ==> IsAdminValidator(userID).Validate(isEmail).None?
    ensures userID == 0 ==>
      FirstError(IsAdminValidator(userID).Validate(isEmail).value) == FieldError("UserID", "required", "")
    ensures userID < 0 ==>
      FirstError(IsAdminValidator(userID).Validate(isEmail).value) == FieldError("UserID", "gt", "0")
  {
    IdFieldError("UserID", userID, isEmail);
    assert FirstInvalid(IsAdminValidator(userID).Fields(), isEmail) == 0 || userID > 0;
  }

  /** Seven characters fail `min=8`, eight pass. */
  lemma PasswordLengthBoundary(email: string, isEmail: string -> bool, seven: string, eight: string)
    requires EmailOk(email, isEmail)
    requires |seven| == 7 && |eight| == 8
    ensures FirstError(RegisterValidator(email, seven).Validate(isEmail).value) == FieldError("Password", "min", "8")
    ensures RegisterValidator(email, eight).Validate(isEmail).None?
  {
    RegisterFirstError(email, seven, isEmail);
    RegisterFirstError(email, eight, isEmail);
  }

  /** With both email and password empty, the email rule is the one reported. */
  lemma EmptyEmailReportedFirst(password: string, isEmail: string -> bool)
    ensures FirstError(RegisterValidator("", password).Validate(isEmail).value) == FieldError("Email", "required", "")
  {
  }

  /**
    `GetDetailedError` as written: the message is built from the first error's
    TAG (a `%s` that was meant for the field name), a `min` failure quoting its
    parameter; any error other than validation errors reads "Internal error".
   */
  function DetailedError(err: ValidateError): (msg: string)
    requires err.ValidationErrors? ==> |err.errs| > 0
    ensures err.InvalidValidation? ==> msg == "Internal error"
    ensures err.ValidationErrors? ==> "Field '" + err.errs[0].tag + "' " <= msg
    ensures err.ValidationErrors? && err.errs[0].tag == "min" ==>
      msg == "Field '" + err.errs[0].tag + "' " + "require minimum " + err.errs[0].param + " characters" + "\n"
    ensures err.ValidationErrors? && err.errs[0].tag != "min" ==>
      msg == "Field '" + err.errs[0].tag + "' " + "is invalid" + "\n"
  {
    match err
    case ValidationErrors(errs) => TagMessage(errs[0])
    case InvalidValidation => "Internal error"
  }

  /**
    The as-written message for the first field error. It is the intended
    message with the tag quoted in place of the field name, except that a
    `required` failure reads "is invalid" instead of "is required".
   */
  function TagMessage(first: FieldError): (m: string)
    ensures first.tag != "required" ==> m == FieldMessage(first.(field := first.tag))
    ensures first.tag == "required" ==> m == FieldHead(first.tag) + "is invalid\n"
  {
    var reason := if first.tag == "min" then "require minimum " + first.param + " characters" else "is invalid";
    FieldHead(first.tag) + reason + "\n"
  }

  /**
    The message the tests expect: it names the failing FIELD, says "is
    required" for a `required` failure, quotes the minimum for `min`, and reads
    "is invalid" otherwise.
   */
  function DetailedErrorIntended(err: ValidateError): (msg: string)
    requires err.ValidationErrors? ==> |err.errs| > 0
    ensures err.InvalidValidation? ==> msg == "Internal error"
    ensures err.ValidationErrors? ==> "Field '" + err.errs[0].field + "' " <= msg
  {
    match err
    case ValidationErrors(errs) => FieldMessage(errs[0])
    case InvalidValidation => "Internal error"
  }

  function FieldMessage(first: FieldError): string {
    FieldHead(first.field) + Reason(first) + "\n"
  }

  /** The opening of a message about a field: `Field '<name>' `. */
  function FieldHead(field: string): string {
    "Field '" + field + "' "
  }

  /** What the intended message says went wrong, by the failing rule's tag. */
  function Reason(first: FieldError): string {
    if first.tag == "required" then "is required"
    else if first.tag == "min" then "require minimum " + first.param + " characters"
    else "is invalid"
  }

  /** A field name the as-written message can never quote: it starts with a capital other than the `F` of "Field". */
  predicate Capitalised(name: string) {
    |name| > 0 && 'A' <= name[0] <= 'Z' && name[0] != 'F'
  }

  /** A tag-built message holds no capital but the `F` of "Field", so it cannot quote a capitalised field. */
  lemma TagMessageOmitsField(e: FieldError)
    requires Capitalised(e.field)
    requires All(e.tag, IsLower) && All(e.param, IsDigit)
    ensures !Contains(TagMessage(e), "Field '" + e.field + "'")
  {
    var c := e.field[0];
    var quoted := "Field '" + e.field + "'";
    assert quoted[7] == c;
    AllExcludes(e.tag, IsLower, c);
    AllExcludes(e.param, IsDigit, c);
    assert c !in TagMessage(e) by {
      FixedTextLacksCapital(c);
    }
    MissingCharNotContained(TagMessage(e), quoted, c);
  }

  /** The fixed text of a tag-built message holds no capital letter but `F`. */
  lemma FixedTextLacksCapital(c: char)
    requires 'A' <= c <= 'Z' && c != 'F'
    ensures c !in "Field '" && c !in "' " && c !in "require minimum " && c !in " characters"
    ensures c !in "is invalid" && c !in "\n"
  {
  }

  /**
    As written, the message for a failed validation never names the failing
    field, whenever field names are capitalised as Go's exported fields are.
   */
  lemma DetailedErrorOmitsField(fields: seq<Field>, isEmail: string -> bool)
    requires forall j :: 0 <= j < |fields| ==> Capitalised(fields[j].name)
    requires ValidateStruct(fields, isEmail).Some?
    ensures var err := ValidateStruct(fields, isEmail).value;
      !Contains(DetailedError(err), "Field '" + FirstError(err).field + "'")
  {
    var err := ValidateStruct(fields, isEmail).value;
    TagMessageOmitsField(FirstError(err));
  }

  /**
    A test expectation for a request that fails validation: the as-written
    message never contains it, the intended one always does.
   */
  ghost predicate MissedAsWrittenMetAsIntended(err: ValidateError, want: string)
    requires err.ValidationErrors? && |err.errs| > 0
  {
    !Contains(DetailedError(err), want) && Contains(DetailedErrorIntended(err), want)
  }

  /** Register with an empty password (the "Empty password" test case). */
  lemma EmptyPasswordMessage(email: string, isEmail: string -> bool)
    requires EmailOk(email, isEmail)
    ensures MissedAsWrittenMetAsIntended(RegisterValidator(email, "").Validate(isEmail).value,
      "Field 'Password' is required")
  {
    var v := RegisterValidator(email, "");
    var first := FieldError("Password", "required", "");
    assert FirstError(v.Validate(isEmail).value) == first by {
      RegisterFirstError(email, "", isEmail);
    }
    PasswordRequiredExpectation();
    TestExpectation(v.Fields(), isEmail, first, "Field 'Password' is required");
  }

  /** Register with a valid email and an empty password, as written: the message quotes the tag `required`. */
  lemma EmptyPasswordAsWritten(email: string, isEmail: string -> bool)
    requires EmailOk(email, isEmail)
    ensures RegisterValidator(email, "").Validate(isEmail).Some?
    ensures DetailedError(RegisterValidator(email, "").Validate(isEmail).value) == "Field 'required' is invalid\n"
  {
    RegisterFirstError(email, "", isEmail);
    RequiredAsWrittenText();
  }

  lemma RequiredAsWrittenText()
    ensures FieldHead("required") + "is invalid\n" == "Field 'required' is invalid\n"
  {
  }

  /** Register with an empty email, whatever the password (the "Empty email" cases). */
  lemma EmptyEmailMessage(password: string, isEmail: string -> bool)
    ensures MissedAsWrittenMetAsIntended(RegisterValidator("", password).Validate(isEmail).value,
      "Field 'Email' is required")
  {
    var v := RegisterValidator("", password);
    var first := FieldError("Email", "required", "");
    assert FirstError(v.Validate(isEmail).value) == first by {
      RegisterFirstError("", password, isEmail);
    }
    EmailRequiredExpectation();
    TestExpectation(v.Fields(), isEmail, first, "Field 'Email' is required");
  }

  /** Register with a seven-character password (the "Short password" test case). */
  lemma ShortPasswordMessage(email: string, password: string, isEmail: string -> bool)
    requires EmailOk(email, isEmail) && |password| == 7
    ensures MissedAsWrittenMetAsIntended(RegisterValidator(email, password).Validate(isEmail).value,
      "Field 'Password' require minimum 8 characters")
  {
    var v := RegisterValidator(email, password);
    var first := FieldError("Password", "min", "8");
    assert FirstError(v.Validate(isEmail).value) == first by {
      RegisterFirstError(email, password, isEmail);
    }
    PasswordMinExpectation();
    TestExpectation(v.Fields(), isEmail, first, "Field 'Password' require minimum 8 characters");
  }

  /** Register with a malformed email (the "Invalid Email" test case). */
  lemma InvalidEmailMessage(email: string, password: string, isEmail: string -> bool)
    requires email != "" && !isEmail(email)
    ensures MissedAsWrittenMetAsIntended(RegisterValidator(email, password).Validate(isEmail).value,
      "Field 'Email' is invalid")
  {
    var v := RegisterValidator(email, password);
    var first := FieldError("Email", "email", "");
    assert FirstError(v.Validate(isEmail).value) == first by {
      RegisterFirstError(email, password, isEmail);
    }
    EmailInvalidExpectation();
    TestExpectation(v.Fields(), isEmail, first, "Field 'Email' is invalid");
  }

  /** Login with a zero app ID (the "Login with empty appID" test case). */
  lemma ZeroAppIDMessage(email: string, password: string, isEmail: string -> bool)
    requires EmailOk(email, isEmail) && PasswordOk(password)
    ensures MissedAsWrittenMetAsIntended(LoginValidator(email, password, 0).Validate(isEmail).value,
      "Field 'AppID' is required")
  {
    var v := LoginValidator(email, password, 0);
    var first := FieldError("AppID", "required", "");
    assert FirstError(v.Validate(isEmail).value) == first by {
      LoginFirstError(email, password, 0, isEmail);
    }
    AppIDRequiredExpectation();
    TestExpectation(v.Fields(), isEmail, first, "Field 'AppID' is required");
  }

  /** Login with a negative app ID (the "Login with negative appID" test case). */
  lemma NegativeAppIDMessage(email: string, password: string, appID: int, isEmail: string -> bool)
    requires EmailOk(email, isEmail) && PasswordOk(password) && appID < 0
    ensures MissedAsWrittenMetAsIntended(LoginValidator(email, password, appID).Validate(isEmail).value,
      "Field 'AppID' is invalid")
  {
    var v := LoginValidator(email, password, appID);
    var first := FieldError("AppID", "gt", "0");
    assert FirstError(v.Validate(isEmail).value) == first by {
      LoginFirstError(email, password, appID, isEmail);
    }
    AppIDInvalidExpectation();
    TestExpectation(v.Fields(), isEmail, first, "Field 'AppID' is invalid");
  }

  /**
    An expectation for a field error: it quotes a capitalised field and is the
    intended message without its closing newline.
   */
  predicate ExpectationFor(first: FieldError, want: string) {
    && Capitalised(first.field)
    && want == FieldHead(first.field) + Reason(first)
  }

  // The expectations of the tests' validation cases each quote their field and lead the intended message.

  lemma PasswordRequiredExpectation()
    ensures ExpectationFor(FieldError("Password", "required", ""), "Field 'Password' is required")
  {
    assert "Field 'Password' is required" == "Field 'Password' " + "is required";
  }

  lemma EmailRequiredExpectation()
    ensures ExpectationFor(FieldError("Email", "required", ""), "Field 'Email' is required")
  {
    assert "Field 'Email' is required" == "Field 'Email' " + "is required";
  }

  lemma AppIDRequiredExpectation()
    ensures ExpectationFor(FieldError("AppID", "required", ""), "Field 'AppID' is required")
  {
    assert "Field 'AppID' is required" == "Field 'AppID' " + "is required";
  }

  lemma PasswordMinExpectation()
    ensures ExpectationFor(FieldError("Password", "min", "8"), "Field 'Password' require minimum 8 characters")
  {
    ShortPasswordText();
    MinimumEightText();
  }

  /** The short-password expectation, cut where the field head ends. */
  lemma ShortPasswordText()
    ensures "Field 'Password' require minimum 8 characters" == "Field 'Password' " + "require minimum 8 characters"
  {
  }

  /** The reason of the short-password expectation, cut around its parameter. */
  lemma MinimumEightText()
    ensures "require minimum 8 characters" == "require minimum " + "8" + " characters"
  {
  }

  lemma EmailInvalidExpectation()
    ensures ExpectationFor(FieldError("Email", "email", ""), "Field 'Email' is invalid")
  {
    assert "Field 'Email' is invalid" == "Field 'Email' " + "is invalid";
  }

  lemma AppIDInvalidExpectation()
    ensures ExpectationFor(FieldError("AppID", "gt", "0"), "Field 'AppID' is invalid")
  {
    assert "Field 'AppID' is invalid" == "Field 'AppID' " + "is invalid";
  }

  /**
    For any validation that fails, an expectation of its first error is missed
    as written and met as intended.
   */
  lemma TestExpectation(fields: seq<Field>, isEmail: string -> bool, first: FieldError, want: string)
    requires ValidateStruct(fields, isEmail).Some?
    requires FirstError(ValidateStruct(fields, isEmail).value) == first
    requires ExpectationFor(first, want)
    ensures MissedAsWrittenMetAsIntended(ValidateStruct(fields, isEmail).value, want)
  {
    var err := ValidateStruct(fields, isEmail).value;
    var quoted := "Field '" + first.field + "'";
    ExpectationPrefixes(first, want);
    TagMessageOmitsField(first);
    if Contains(DetailedError(err), want) {
      ContainsPrefix(DetailedError(err), want, quoted);
    }
    PrefixContained(FieldMessage(first), want);
  }

  /** An expectation starts with the quoted field and is a prefix of the intended message. */
  lemma ExpectationPrefixes(first: FieldError, want: string)
    requires ExpectationFor(first, want)
    ensures "Field '" + first.field + "'" <= want
    ensures want <= FieldMessage(first)
  {
    var quoted := "Field '" + first.field + "'";
    var msg := FieldMessage(first);
    assert msg == want + "\n";
    assert want <= msg by {
      assert msg[..|want|] == want;
    }
    assert quoted <= want by {
      assert quoted + " " <= msg;
      assert |quoted| < |want|;
      assert want[..|quoted|] == msg[..|quoted|];
    }
  }
}
