/** `loginValidation`, `registerValidation` and `updateUserValidation`. */
module UserValidation {
  import opened Wrappers
  import opened Json
  import opened Types
  import opened FieldRules

  const PasswordMessage := "Password must be at least 6 characters"

  datatype LoginInput = LoginInput(email: string, password: string)

  datatype RegisterInput = RegisterInput(
    firstName: string, lastName: string, address: string, email: string,
    phone: string, password: string, dob: int, gender: Gender)

  datatype UpdateInput = UpdateInput(
    firstName: string, lastName: string, email: string, phone: string,
    dob: string, gender: Gender, address: string)

  function LoginIssues(data: Object, isEmail: string -> bool): seq<string> {
    EmailRule(Get(data, "email"), isEmail, "Invalid email")
    + StringRule(Get(data, "password"), 6, PasswordMessage, None)
  }

  /** `loginValidation(data)`: a well-formed email and a password of at least 6 characters. */
  function Login(data: Object, isEmail: string -> bool): (r: Result<LoginInput, seq<string>>)
    ensures r.Success? <==>
              (Get(data, "email").Some? && Get(data, "email").value.Str? && isEmail(Get(data, "email").value.s))
              && IsStringOfLength(Get(data, "password"), 6)
    ensures r.Success? ==>
              Get(data, "email") == Some(Str(r.value.email)) && Get(data, "password") == Some(Str(r.value.password))
    ensures r.Failure? ==> r.error == LoginIssues(data, isEmail) && |r.error| > 0
  {
    var issues := LoginIssues(data, isEmail);
    if issues != [] then Failure(issues)
    else Success(LoginInput(Get(data, "email").value.s, Get(data, "password").value.s))
  }

  function RegisterIssues(data: Object, isEmail: string -> bool): seq<string> {
    StringRule(Get(data, "first_name"), 1, "First name is required", None)
    + StringRule(Get(data, "last_name"), 1, "Last name is required", None)
    + StringRule(Get(data, "address"), 1, "Last name is required", None)
    + EmailRule(Get(data, "email"), isEmail, "Invalid email")
    + StringRule(Get(data, "phone"), 1, "Phone number is required", None)
    + StringRule(Get(data, "password"), 6, PasswordMessage, None)
    + DateRule(Get(data, "dob"), Some("Date of birth is required"))
    + EnumRule(Get(data, "gender"), GenderNames, Some("Gender is required"))
  }

  predicate RegisterAcceptable(data: Object, isEmail: string -> bool) {
    && IsStringOfLength(Get(data, "first_name"), 1)
    && IsStringOfLength(Get(data, "last_name"), 1)
    && IsStringOfLength(Get(data, "address"), 1)
    && Get(data, "email").Some? && Get(data, "email").value.Str? && isEmail(Get(data, "email").value.s)
    && IsStringOfLength(Get(data, "phone"), 1)
    && IsStringOfLength(Get(data, "password"), 6)
    && IsValidDate(Get(data, "dob"))
    && IsOneOf(Get(data, "gender"), GenderNames)
  }

  /** `registerValidation(data)`. */
  function Register(data: Object, isEmail: string -> bool): (r: Result<RegisterInput, seq<string>>)
    ensures r.Success? <==> RegisterAcceptable(data, isEmail)
    ensures r.Success? ==>
              Get(data, "email") == Some(Str(r.value.email))
              && Get(data, "password") == Some(Str(r.value.password))
              && Get(data, "dob") == Some(DateObj(Some(r.value.dob)))
              && Get(data, "gender") == Some(Str(GenderName(r.value.gender)))
    ensures r.Failure? ==> r.error == RegisterIssues(data, isEmail) && |r.error| > 0
  {
    var issues := RegisterIssues(data, isEmail);
    if issues != [] then Failure(issues)
    else Success(RegisterInput(
      Get(data, "first_name").value.s, Get(data, "last_name").value.s, Get(data, "address").value.s,
      Get(data, "email").value.s, Get(data, "phone").value.s, Get(data, "password").value.s,
      Get(data, "dob").value.time.value, ParseGender(Get(data, "gender").value.s).value))
  }

  function UpdateIssues(data: Object, isEmail: string -> bool): seq<string> {
    StringRule(Get(data, "first_name"), 1, "First name is required", None)
    + StringRule(Get(data, "last_name"), 1, "Last name is required", None)
    + EmailRule(Get(data, "email"), isEmail, "Invalid email")
    + StringRule(Get(data, "phone"), 1, "Phone number is required", None)
    + StringRule(Get(data, "dob"), 0, "", Some("Date of birth is required"))
    + EnumRule(Get(data, "gender"), GenderNames, None)
    + StringRule(Get(data, "address"), 1, "Address is required", None)
  }

  predicate UpdateAcceptable(data: Object, isEmail: string -> bool) {
    && IsStringOfLength(Get(data, "first_name"), 1)
    && IsStringOfLength(Get(data, "last_name"), 1)
    && Get(data, "email").Some? && Get(data, "email").value.Str? && isEmail(Get(data, "email").value.s)
    && IsStringOfLength(Get(data, "phone"), 1)
    && IsStringOfLength(Get(data, "dob"), 0)
    && IsOneOf(Get(data, "gender"), GenderNames)
    && IsStringOfLength(Get(data, "address"), 1)
  }

  /** `updateUserValidation(data)`: like registration, but no password and `dob` as any string. */
  function Update(data: Object, isEmail: string -> bool): (r: Result<UpdateInput, seq<string>>)
    ensures r.Success? <==> UpdateAcceptable(data, isEmail)
    ensures r.Success? ==>
              Get(data, "email") == Some(Str(r.value.email))
              && Get(data, "dob") == Some(Str(r.value.dob))
              && Get(data, "gender") == Some(Str(GenderName(r.value.gender)))
    ensures r.Failure? ==> r.error == UpdateIssues(data, isEmail) && |r.error| > 0
  {
    var issues := UpdateIssues(data, isEmail);
    if issues != [] then Failure(issues)
    else Success(UpdateInput(
      Get(data, "first_name").value.s, Get(data, "last_name").value.s, Get(data, "email").value.s,
      Get(data, "phone").value.s, Get(data, "dob").value.s,
      ParseGender(Get(data, "gender").value.s).value, Get(data, "address").value.s))
  }

  /** A 5-character password fails login and registration with the password message. */
  lemma ShortPasswordRefused(data: Object, isEmail: string -> bool, p: string)
    requires |p| == 5
    ensures Login(data["password" := Str(p)], isEmail).Failure?
    ensures PasswordMessage in Login(data["password" := Str(p)], isEmail).error
    ensures Register(data["password" := Str(p)], isEmail).Failure?
    ensures PasswordMessage in Register(data["password" := Str(p)], isEmail).error
  {
    var d := data["password" := Str(p)];
    assert Get(d, "password") == Some(Str(p));
    var rule := StringRule(Get(d, "password"), 6, PasswordMessage, None);
    assert rule == [PasswordMessage];
    assert LoginIssues(d, isEmail) == EmailRule(Get(d, "email"), isEmail, "Invalid email") + rule;
  }

  /**
   * A 6-character password meets the rule: login then reports only email
   * issues, and a body that passed keeps passing.
   */
  lemma SixCharacterPasswordAccepted(data: Object, isEmail: string -> bool, p: string)
    requires |p| == 6
    ensures LoginIssues(data["password" := Str(p)], isEmail) == EmailRule(Get(data, "email"), isEmail, "Invalid email")
    ensures Login(data, isEmail).Success? ==> Login(data["password" := Str(p)], isEmail).Success?
    ensures Register(data, isEmail).Success? ==> Register(data["password" := Str(p)], isEmail).Success?
  {
    var d := data["password" := Str(p)];
    assert Get(d, "password") == Some(Str(p));
    assert Get(d, "email") == Get(data, "email");
    assert StringRule(Get(d, "password"), 6, PasswordMessage, None) == [];
  }

  /**
   * Registration wants `dob` as a `Date`, the profile update as a string: a
   * string `dob` (what a JSON body carries) always fails registration, and a
   * `Date` always fails the update.
   */
  lemma DobTypesDiffer(data: Object, isEmail: string -> bool)
    ensures Get(data, "dob").Some? && Get(data, "dob").value.Str? ==> Register(data, isEmail).Failure?
    ensures Get(data, "dob").Some? && Get(data, "dob").value.DateObj? ==> Update(data, isEmail).Failure?
  {
  }

  /** The update schema has no password rule: the password field never changes its outcome. */
  lemma UpdateIgnoresPassword(data: Object, isEmail: string -> bool, v: Value)
    ensures Update(data["password" := v], isEmail) == Update(data, isEmail)
    ensures Update(data - {"password"}, isEmail) == Update(data, isEmail)
  {
    var d1, d2 := data["password" := v], data - {"password"};
    assert Get(d1, "first_name") == Get(data, "first_name") == Get(d2, "first_name");
    assert Get(d1, "last_name") == Get(data, "last_name") == Get(d2, "last_name");
    assert Get(d1, "email") == Get(data, "email") == Get(d2, "email");
    assert Get(d1, "phone") == Get(data, "phone") == Get(d2, "phone");
    assert Get(d1, "dob") == Get(data, "dob") == Get(d2, "dob");
    assert Get(d1, "gender") == Get(data, "gender") == Get(d2, "gender");
    assert Get(d1, "address") == Get(data, "address") == Get(d2, "address");
    assert UpdateIssues(d1, isEmail) == UpdateIssues(data, isEmail);
    assert UpdateIssues(d2, isEmail) == UpdateIssues(data, isEmail);
  }

  /** An empty address in registration is reported with the last-name message. */
  lemma RegisterAddressMessage(data: Object, isEmail: string -> bool)
    requires Get(data, "address") == Some(Str(""))
    ensures Register(data, isEmail).Failure?
    ensures "Last name is required" in Register(data, isEmail).error
  {
    var rule := StringRule(Get(data, "address"), 1, "Last name is required", None);
    assert rule == ["Last name is required"];
    var front := StringRule(Get(data, "first_name"), 1, "First name is required", None)
      + StringRule(Get(data, "last_name"), 1, "Last name is required", None);
    var back := EmailRule(Get(data, "email"), isEmail, "Invalid email")
      + StringRule(Get(data, "phone"), 1, "Phone number is required", None)
      + StringRule(Get(data, "password"), 6, PasswordMessage, None)
      + DateRule(Get(data, "dob"), Some("Date of birth is required"))
      + EnumRule(Get(data, "gender"), GenderNames, Some("Gender is required"));
    assert RegisterIssues(data, isEmail) == front + rule + back;
    assert (front + rule + back)[|front|] == "Last name is required";
  }

  /** Registration and update both accept a gender only when it is M, F or O. */
  lemma GenderRuleShared(data: Object, isEmail: string -> bool, s: string)
    requires s !in GenderNames
    ensures Register(data["gender" := Str(s)], isEmail).Failure?
    ensures Update(data["gender" := Str(s)], isEmail).Failure?
  {
    assert Get(data["gender" := Str(s)], "gender") == Some(Str(s));
  }
}
