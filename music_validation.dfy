/** `musicValidation`: title, album name and genre must be non-empty strings. */
module MusicValidation {
  import opened Wrappers
  import opened Json
  import opened Types
  import opened FieldRules

  /** The fields the schema returns on success. */
  datatype MusicInput = MusicInput(title: string, albumName: string, genre: string)

  function Issues(data: Object): seq<string> {
    StringRule(Get(data, "title"), 1, "Title is required", None)
    + StringRule(Get(data, "album_name"), 1, "Album name is required", None)
    + StringRule(Get(data, "genre"), 1, "Genre is required", None)
  }

  /** `musicValidation(data)`. */
  function Validate(data: Object): (r: Result<MusicInput, seq<string>>)
    ensures r.Success? <==>
              IsStringOfLength(Get(data, "title"), 1)
              && IsStringOfLength(Get(data, "album_name"), 1)
              && IsStringOfLength(Get(data, "genre"), 1)
    ensures r.Success? ==>
              Get(data, "title") == Some(Str(r.value.title))
              && Get(data, "album_name") == Some(Str(r.value.albumName))
              && Get(data, "genre") == Some(Str(r.value.genre))
    ensures r.Failure? ==> r.error == Issues(data) && 1 <= |r.error| <= 3
  {
    var issues := Issues(data);
    if issues != [] then Failure(issues)
    else Success(MusicInput(Get(data, "title").value.s, Get(data, "album_name").value.s, Get(data, "genre").value.s))
  }

  /** `artist_id` is not part of the schema: its value, or its absence, never changes the outcome. */
  lemma ArtistIdIgnored(data: Object, v: Value)
    ensures Validate(data["artist_id" := v]) == Validate(data)
    ensures Validate(data - {"artist_id"}) == Validate(data)
  {
    var d1, d2 := data["artist_id" := v], data - {"artist_id"};
    assert Get(d1, "title") == Get(data, "title") && Get(d2, "title") == Get(data, "title");
    assert Get(d1, "album_name") == Get(data, "album_name") && Get(d2, "album_name") == Get(data, "album_name");
    assert Get(d1, "genre") == Get(data, "genre") && Get(d2, "genre") == Get(data, "genre");
  }

  /** Any non-empty genre passes, including names outside the declared genre list. */
  lemma GenreUnrestricted(data: Object, genre: string)
    requires genre != ""
    requires Validate(data).Success?
    ensures Validate(data["genre" := Str(genre)]).Success?
    ensures Validate(data["genre" := Str(genre)]).value.genre == genre
  {
    var d := data["genre" := Str(genre)];
    assert Get(d, "genre") == Some(Str(genre));
    assert Get(d, "title") == Get(data, "title") && Get(d, "album_name") == Get(data, "album_name");
  }

  /** "Pop" is not one of the declared genres, and it is accepted. */
  lemma UndeclaredGenreAccepted()
    ensures forall g: Genre :: GenreName(g) != "Pop"
    ensures Validate(map["title" := Str("t"), "album_name" := Str("a"), "genre" := Str("Pop")]).Success?
  {
    var d := map["title" := Str("t"), "album_name" := Str("a"), "genre" := Str("Pop")];
    assert Get(d, "title") == Some(Str("t"));
    assert Get(d, "album_name") == Some(Str("a"));
    assert Get(d, "genre") == Some(Str("Pop"));
  }

  /** Each empty field contributes its own message. */
  lemma EmptyFieldMessages(data: Object)
    ensures Get(data, "title") == Some(Str("")) ==> "Title is required" in Validate(data).error
    ensures Get(data, "album_name") == Some(Str("")) ==> "Album name is required" in Validate(data).error
    ensures Get(data, "genre") == Some(Str("")) ==> "Genre is required" in Validate(data).error
    ensures Get(data, "title") == Get(data, "album_name") == Get(data, "genre") == Some(Str("")) ==>
              Validate(data).error == ["Title is required", "Album name is required", "Genre is required"]
  {
  }
}
