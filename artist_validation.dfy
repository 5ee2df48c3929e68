/** `artistValidation`: the schema an artist body must satisfy. */
module ArtistValidation {
  import opened Wrappers
  import opened Json
  import opened Types
  import opened FieldRules

  /** The issues, in schema order: name, dob, gender, first_release_year, address, no_of_albums_released. */
  function Issues(data: Object): seq<string> {
    StringRule(Get(data, "name"), 1, "Name is required", None)
    + DateRule(Get(data, "dob"), Some("Date of birth is required"))
    + EnumRule(Get(data, "gender"), GenderNames, Some("Gender is required"))
    + IntegerRule(Get(data, "first_release_year"), 1900, "Invalid year")
    + StringRule(Get(data, "address"), 1, "Address is required", None)
    + IntegerRule(Get(data, "no_of_albums_released"), 0, "Number of albums released cannot be negative")
  }

  /** The rule each field must meet, stated field by field. */
  predicate Acceptable(data: Object) {
    && IsStringOfLength(Get(data, "name"), 1)
    && IsValidDate(Get(data, "dob"))
    && IsOneOf(Get(data, "gender"), GenderNames)
    && IsIntegerAtLeast(Get(data, "first_release_year"), 1900)
    && IsStringOfLength(Get(data, "address"), 1)
    && IsIntegerAtLeast(Get(data, "no_of_albums_released"), 0)
  }

  /** The artist a body describes and the body agree field for field. */
  predicate Describes(data: Object, a: ArtistRow) {
    && Get(data, "name") == Some(Str(a.name))
    && Get(data, "dob") == Some(DateObj(Some(a.dob)))
    && Get(data, "gender") == Some(Str(GenderName(a.gender)))
    && Get(data, "first_release_year") == Some(Num(a.firstReleaseYear as real))
    && Get(data, "address") == Some(Str(a.address))
    && Get(data, "no_of_albums_released") == Some(Num(a.albumsReleased as real))
  }

  /** `artistValidation(data)`, i.e. `schema.safeParse(data)`. */
  function Validate(data: Object): (r: Result<ArtistRow, seq<string>>)
    ensures r.Success? <==> Acceptable(data)
    ensures r.Success? ==> Describes(data, r.value)
    ensures r.Success? ==> r.value.firstReleaseYear >= 1900 && r.value.albumsReleased >= 0
    ensures r.Success? ==> r.value.name != "" && r.value.address != ""
    ensures r.Failure? ==> r.error == Issues(data) && |r.error| > 0
  {
    var issues := Issues(data);
    if issues != [] then Failure(issues)
    else
      var year := Get(data, "first_release_year").value.x;
      var albums := Get(data, "no_of_albums_released").value.x;
      Success(ArtistRow(
        Get(data, "name").value.s,
        Get(data, "dob").value.time.value,
        ParseGender(Get(data, "gender").value.s).value,
        year.Floor,
        Get(data, "address").value.s,
        albums.Floor))
  }

  /** 1900 is the earliest accepted first release year; 1899 is refused as "Invalid year". */
  lemma YearBoundary(data: Object)
    ensures Validate(data).Success? ==> Validate(data["first_release_year" := Num(1900 as real)]).Success?
    ensures Get(data, "first_release_year") == Some(Num(1899 as real)) ==>
              Validate(data).Failure? && "Invalid year" in Validate(data).error
  {
    var d := data["first_release_year" := Num(1900 as real)];
    assert Get(d, "first_release_year") == Some(Num(1900 as real));
    if Get(data, "first_release_year") == Some(Num(1899 as real)) {
      assert IsInteger(1899 as real);
      assert "Invalid year" in IntegerRule(Get(data, "first_release_year"), 1900, "Invalid year");
    }
  }

  /** Zero albums are accepted; any negative count is refused with its own message. */
  lemma AlbumsBoundary(data: Object, n: int)
    requires n < 0
    ensures Validate(data).Success? ==> Validate(data["no_of_albums_released" := Num(0 as real)]).Success?
    ensures Get(data, "no_of_albums_released") == Some(Num(n as real)) ==>
              Validate(data).Failure?
              && "Number of albums released cannot be negative" in Validate(data).error
  {
    var d := data["no_of_albums_released" := Num(0 as real)];
    assert Get(d, "no_of_albums_released") == Some(Num(0 as real));
  }

  /** A gender other than M, F or O makes validation fail, whatever the other fields hold. */
  lemma GenderOutsideEnumFails(data: Object, s: string)
    requires s !in GenderNames
    ensures Validate(data["gender" := Str(s)]).Failure?
  {
    assert Get(data["gender" := Str(s)], "gender") == Some(Str(s));
  }

  /** An empty name or address is reported with its own message. */
  lemma EmptyTextMessages(data: Object)
    ensures Get(data, "name") == Some(Str("")) ==>
              Validate(data).Failure? && "Name is required" in Validate(data).error
    ensures Get(data, "address") == Some(Str("")) ==>
              Validate(data).Failure? && "Address is required" in Validate(data).error
  {
  }
}
