/**
 * The entities: the gender and role enumerations, the rows of the three
 * tables, and the genre list that the type declarations name. A music row
 * and most of a user row keep the request values they were stored from,
 * because the handlers write those columns without validating them.
 */
module Types {
  import opened Wrappers
  import opened Json

  datatype Gender = M | F | O

  datatype Role = SuperAdmin | ArtistManager | Artist

  /** The genres the `Music` type declares; validation does not use this list. */
  datatype Genre = Rnb | Country | Classic | Rock | Jazz

  /** The spellings the validators accept for a gender. */
  const GenderNames: seq<string> := ["M", "F", "O"]

  /** The gender a spelling names, if it names one. */
  function ParseGender(s: string): (r: Option<Gender>)
    ensures r.Some? <==> s in GenderNames
    ensures r.Some? ==> GenderName(r.value) == s
  {
    if s == "M" then Some(M) else if s == "F" then Some(F) else if s == "O" then Some(O) else None
  }

  function GenderName(g: Gender): string {
    match g
    case M => "M"
    case F => "F"
    case O => "O"
  }

  function RoleName(r: Role): string {
    match r
    case SuperAdmin => "super_admin"
    case ArtistManager => "artist_manager"
    case Artist => "artist"
  }

  function GenreName(g: Genre): string {
    match g
    case Rnb => "rnb"
    case Country => "country"
    case Classic => "Classic"
    case Rock => "Rock"
    case Jazz => "Jazz"
  }

  /** An artist row; every column was validated before it was written. */
  datatype ArtistRow = ArtistRow(
    name: string,
    dob: int,
    gender: Gender,
    firstReleaseYear: int,
    address: string,
    albumsReleased: int)

  /** A music row: the values the INSERT or UPDATE was given. */
  datatype MusicRow = MusicRow(title: Value, albumName: Value, artistId: Value, genre: Value)

  /** A user row: the request values, except that `password` is the stored hash. */
  datatype UserRow = UserRow(
    firstName: Value,
    lastName: Value,
    email: Value,
    password: string,
    phone: Value,
    dob: Value,
    gender: Value,
    address: Value,
    role: Value)

  /** A row together with its `id`, as `RETURNING *` gives it back. */
  datatype Record =
    | ArtistRecord(id: int, artist: ArtistRow)
    | MusicRecord(id: int, music: MusicRow)
    | UserRecord(id: int, user: UserRow)
}
