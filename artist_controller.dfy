/**
 * The artist handlers: create, get by id, update and delete over the artist
 * table. `new Date(dob)` is the parameter `parseDate`, which gives the time
 * of a valid date and `None` for an Invalid Date.
 */
module ArtistController {
  import opened Wrappers
  import opened Json
  import opened Types
  import opened Http
  import opened Database
  import ArtistValidation
  import Text

  datatype Rejection = BadDob | Invalid(messages: seq<string>)

  const NotFound := Response(404, MessagePayload("Artist not found"))

  /**
   * The checks create and update share, in the handlers' order: parse `dob`
   * first, then validate the body with `dob` replaced by the parsed date.
   */
  function PrepareArtist(body: Object, parseDate: Option<Value> -> Option<int>): (r: Result<ArtistRow, Rejection>)
    ensures r == Failure(BadDob) <==> parseDate(Get(body, "dob")).None?
    ensures r.Failure? && r.error.Invalid? ==>
              r.error.messages != []
              && r.error.messages == ArtistValidation.Issues(body["dob" := DateObj(parseDate(Get(body, "dob")))])
    ensures r.Success? ==>
              parseDate(Get(body, "dob")) == Some(r.value.dob)
              && ArtistValidation.Acceptable(body["dob" := DateObj(Some(r.value.dob))])
              && ArtistValidation.Describes(body["dob" := DateObj(Some(r.value.dob))], r.value)
  {
    match parseDate(Get(body, "dob"))
    case None => Failure(BadDob)
    case Some(t) =>
      match ArtistValidation.Validate(body["dob" := DateObj(Some(t))])
      case Failure(messages) => Failure(Invalid(messages))
      case Success(row) => Success(row)
  }

  /** A validated artist carries the body's name, gender, year, address and album count. */
  lemma {:induction false} PreparedFieldsFromBody(body: Object, parseDate: Option<Value> -> Option<int>)
    requires PrepareArtist(body, parseDate).Success?
    ensures var a := PrepareArtist(body, parseDate).value;
            && Get(body, "name") == Some(Str(a.name))
            && Get(body, "gender") == Some(Str(GenderName(a.gender)))
            && Get(body, "first_release_year") == Some(Num(a.firstReleaseYear as real))
            && Get(body, "address") == Some(Str(a.address))
            && Get(body, "no_of_albums_released") == Some(Num(a.albumsReleased as real))
            && a.firstReleaseYear >= 1900 && a.albumsReleased >= 0
  {
    var a := PrepareArtist(body, parseDate).value;
    var d := body["dob" := DateObj(Some(a.dob))];
    assert ArtistValidation.Describes(d, a);
    assert Get(d, "name") == Get(body, "name");
    assert Get(d, "gender") == Get(body, "gender");
    assert Get(d, "first_release_year") == Get(body, "first_release_year");
    assert Get(d, "address") == Get(body, "address");
    assert Get(d, "no_of_albums_released") == Get(body, "no_of_albums_released");
  }

  /**
   * `createArtist`: a bad `dob` or a failed validation is thrown as a 400
   * before the table is read; a taken name is refused with 400; otherwise
   * one row is inserted and returned with 201.
   */
  method CreateArtist(db: Database, body: Object, parseDate: Option<Value> -> Option<int>) returns (out: Outcome)
    requires db.Valid()
    modifies db
    ensures db.Valid()
    ensures db.music == old(db.music) && db.users == old(db.users)
    ensures match PrepareArtist(body, parseDate)
            case Failure(BadDob) =>
              out == Threw(HttpError(400, "Invalid date format for dob")) && db.artists == old(db.artists)
              && db.CountersUnchanged()
            case Failure(Invalid(messages)) =>
              out == Threw(HttpError(400, Text.Join(messages, ", "))) && db.artists == old(db.artists)
              && db.CountersUnchanged()
            case Success(row) =>
              if NameTaken(old(db.artists), row.name) then
                out == Reply(Response(400, MessagePayload("Artist already exists"))) && db.artists == old(db.artists)
                && db.CountersUnchanged()
              else
                && old(db.nextArtistId) !in old(db.artists)
                && db.nextArtistId == old(db.nextArtistId) + 1
                && db.nextMusicId == old(db.nextMusicId) && db.nextUserId == old(db.nextUserId)
                && db.artists == old(db.artists)[old(db.nextArtistId) := row]
                && out == Reply(Response(201, DataPayload(Some("Artist created successfully"),
                                                          ArtistRecord(old(db.nextArtistId), row))))
    ensures NamesUnique(old(db.artists)) ==> NamesUnique(db.artists)
  {
    var prepared := PrepareArtist(body, parseDate);
    match prepared
    case Failure(BadDob) =>
      out := Threw(HttpError(400, "Invalid date format for dob"));
    case Failure(Invalid(messages)) =>
      out := Threw(HttpError(400, Text.Join(messages, ", ")));
    case Success(row) =>
      if NameTaken(db.artists, row.name) {
        out := Reply(Response(400, MessagePayload("Artist already exists")));
      } else {
        ghost var before := db.artists;
        var id := db.InsertArtist(row);
        if NamesUnique(before) {
          InsertKeepsNamesUnique(before, id, row);
        }
        out := Reply(Response(201, DataPayload(Some("Artist created successfully"), ArtistRecord(id, row))));
      }
  }

  /** `getArtistById`: the row with that id, or 404 exactly when there is none. */
  method GetArtistById(db: Database, id: int) returns (out: Outcome)
    ensures id !in db.artists <==> out == Reply(NotFound)
    ensures id in db.artists ==> out == Reply(Response(200, DataPayload(None, ArtistRecord(id, db.artists[id]))))
  {
    if id !in db.artists {
      return Reply(NotFound);
    }
    out := Reply(Response(200, DataPayload(None, ArtistRecord(id, db.artists[id]))));
  }

  /**
   * `updateArtistById`: `dob` and validation are checked before the id is
   * looked up; a found row gets all six fields overwritten and nothing else
   * changes. The name is not checked against the other rows.
   */
  method UpdateArtistById(db: Database, id: int, body: Object, parseDate: Option<Value> -> Option<int>) returns (out: Outcome)
    requires db.Valid()
    modifies db
    ensures db.Valid() && db.CountersUnchanged()
    ensures db.music == old(db.music) && db.users == old(db.users)
    ensures match PrepareArtist(body, parseDate)
            case Failure(BadDob) =>
              out == Reply(Response(400, MessagePayload("Invalid date format for dob"))) && db.artists == old(db.artists)
            case Failure(Invalid(messages)) =>
              out == Threw(HttpError(400, Text.Join(messages, ", "))) && db.artists == old(db.artists)
            case Success(row) =>
              if id !in old(db.artists) then
                out == Reply(NotFound) && db.artists == old(db.artists)
              else
                && db.artists == old(db.artists)[id := row]
                && out == Reply(Response(200, MessagePayload("Artist updated successfully")))
                && (NameTaken(old(db.artists) - {id}, row.name) ==> !NamesUnique(db.artists))
  {
    var prepared := PrepareArtist(body, parseDate);
    match prepared
    case Failure(BadDob) =>
      out := Reply(Response(400, MessagePayload("Invalid date format for dob")));
    case Failure(Invalid(messages)) =>
      out := Threw(HttpError(400, Text.Join(messages, ", ")));
    case Success(row) =>
      if id !in db.artists {
        out := Reply(NotFound);
      } else {
        if NameTaken(db.artists - {id}, row.name) {
          OverwriteCanDuplicateName(db.artists, id, row);
        }
        db.UpdateArtist(id, row);
        out := Reply(Response(200, MessagePayload("Artist updated successfully")));
      }
  }

  /**
   * `deleteArtistById`: removes the row with that id and nothing else
   * (songs of the artist stay); 404 when no row was deleted.
   */
  method DeleteArtistById(db: Database, id: int) returns (out: Outcome)
    requires db.Valid()
    modifies db
    ensures db.Valid() && db.CountersUnchanged()
    ensures db.artists == old(db.artists) - {id}
    ensures db.music == old(db.music) && db.users == old(db.users)
    ensures id !in old(db.artists) <==> out == Reply(NotFound)
    ensures id in old(db.artists) ==> out == Reply(Response(200, MessagePayload("Artist deleted successfully")))
  {
    var rowCount := db.DeleteArtist(id);
    if rowCount == 0 {
      return Reply(NotFound);
    }
    out := Reply(Response(200, MessagePayload("Artist deleted successfully")));
  }
}
