# music-app-server request core, modelled in Dafny

This project models the request-processing core of a small Express backend for
a music-artist roster: the zod validators for artist, music and user bodies,
the `authenticate` and `checkRole` guards, the `errorHandler` boundary, and the
controller logic for artists, music and users over three tables. It also covers
the text handling of the artist CSV export (`importArtist`). Postgres, bcrypt,
jsonwebtoken, `new Date(...)` and zod's email syntax stay abstract. The model
then proves what each handler returns and how each table changes.

Layout, one module per source file or component:

- `wrappers.dfy` (Option, Result), `json.dfy` (JavaScript values and request
  bodies), `text.dfy` (`split` and `join`, with their round-trip lemmas).
- `types.dfy`: the Gender, Role and genre enumerations and the table rows
  (src/types/index.ts).
- `field_rules.dfy`: the zod field schemas. `artist_validation.dfy`,
  `music_validation.dfy` and `user_validation.dfy` build the three validator files from them.
- `http.dfy` (the HttpError class, responses, outcomes), `error_handler.dfy`,
  `check_role.dfy`, `auth.dfy`.
- `database.dfy`: a `Database` class holding the three tables as maps from id
  to row, plus each table's SERIAL counter. It has one method per INSERT,
  UPDATE and DELETE. The SELECTs are map lookups and the predicates
  `NameTaken` and `EmailTaken`. Only an INSERT advances a counter, and only
  its own table's, so an id is never handed out twice.
- `artist_controller.dfy`, `artist_export.dfy`, `music_controller.dfy`,
  `user_controller.dfy`: the handlers. Each state-changing handler is a method
  with `modifies db` whose postcondition gives the new tables on every branch.

How the source's behaviour is represented:

- A request body is a map from keys to JavaScript values. A missing key is
  `undefined`. Numbers are reals, and `.int()` means the value equals its floor.
  node-postgres sends `undefined` as NULL, and SQL `=` never matches NULL.
- The zod rules report issues in schema order, one list for the whole object.
  A value of the wrong type gives one issue: the schema's `required_error` or
  "Required" when the value is absent, otherwise "Expected T, received U".
  Otherwise every failing check adds its message, so 1899.5 reports both
  "Expected integer, received float" and "Invalid year".
- A thrown `HttpError` is the outcome `Threw`. `ErrorHandler.Deliver` gives the
  response the client gets once `errorHandler` handles it. The user handlers
  reach it through `asyncWrapper`. The artist handlers are not wrapped, so
  whether their throws reach it depends on the Express version.
- Foreign calls are parameters: `isEmail`, `parseDate` (`new Date(x)`,
  `None` for an Invalid Date), `verify` (`jwt.verify`), `hash` and `compare`
  (bcrypt), and `parses` and `field` (`JSON.parse` of one row during the CSV
  export). A `jwt.sign` token is modelled as its payload, secret and expiry.

Behaviour of the code that a reader might not expect, each point stated by
the model:

- Songs are created without checking that the artist exists. `artist_id` comes
  from the body, not the route.
- Updates overwrite every column. They do not merge provided fields over the
  stored row.
- An artist update does not re-check name uniqueness. When another row
  already holds the new name, `ArtistController.UpdateArtistById` leaves the
  table with a duplicate name.
- A duplicate artist name or user email is answered with 400.
- The payload passed to `jwt.sign` at login holds only `userId` and `email`
  (jsonwebtoken adds `iat` and `exp`), never the role, so no `checkRole`
  guard lets the claims through
  (`UserController.LoginClaimsPassNoGuard`). No route uses `checkRole`.
- No handler calls `registerValidation` or `loginValidation`.
- Registration wants a `Date` for `dob`, which a JSON body cannot carry
  (`UserValidation.DobTypesDiffer`).
- The CSV export does not quote cells (`ArtistExport.CommaInCellSplits`).
- On an empty artist table the export's query answers "[]" (its `COALESCE`).
  That string is one chunk, so the CSV holds the header and then one more
  line of cells, not the header alone (`ArtistExport.EmptyTableExport`).
- No handler paginates its listing, and no handler accepts the refresh token it issues.

## Model

| member | source | states |
|---|---|---|
| FieldRules.StringRule | src/validation/artist.ts:5 | `z.string().min(n, msg)`: no issue iff the value is a string of length at least n; a short string gives exactly [msg]; an absent value gives the required_error or "Required" |
| FieldRules.EmailRule | src/validation/user.ts:6 | no issue iff the value is a string the email predicate accepts; a rejected string gives exactly ["Invalid email"] |
| FieldRules.DateRule | src/validation/artist.ts:6 | no issue iff the value is a Date with a time; an Invalid Date gives "Invalid date" |
| FieldRules.EnumRule | src/validation/artist.ts:7 | no issue iff the value is a string among the options, at most one issue |
| FieldRules.IntegerRule | src/validation/artist.ts:8-13 | no issue iff the value is an integral number at least the bound; a number below the bound always reports the bound's message, and an integer below it reports only that message |
| FieldRules.TypeIssue | src/validation/artist.ts:6-7 | an absent value reports the schema's required_error when it has one, else "Required" |
| ArtistValidation.Validate | src/validation/artist.ts:3-17 | succeeds iff name and address are non-empty strings, dob a valid Date, gender one of M/F/O, first_release_year an integer >= 1900 and no_of_albums_released an integer >= 0; the result matches the body field for field; a failure's list is the schema-order issue list and is non-empty |
| ArtistValidation.YearBoundary | src/validation/artist.ts:8 | a passing body still passes with year 1900; year 1899 fails with "Invalid year" among the messages |
| ArtistValidation.AlbumsBoundary | src/validation/artist.ts:10-13 | a passing body still passes with 0 albums; any negative count fails with "Number of albums released cannot be negative" |
| ArtistValidation.GenderOutsideEnumFails | src/validation/artist.ts:7 | a gender string outside M/F/O fails whatever the other fields are |
| ArtistValidation.EmptyTextMessages | src/validation/artist.ts:5-9 | an empty name reports "Name is required"; an empty address reports "Address is required" |
| MusicValidation.Validate | src/validation/music.ts:4-13 | succeeds iff title, album_name and genre are non-empty strings, returning those strings; a failure holds one to three messages in schema order |
| MusicValidation.ArtistIdIgnored | src/validation/music.ts:5-10 | setting or removing artist_id never changes the outcome |
| MusicValidation.GenreUnrestricted | src/validation/music.ts:9 | replacing the genre of a passing body by any non-empty string keeps it passing with that genre |
| MusicValidation.UndeclaredGenreAccepted | src/validation/music.ts:9 | "Pop" is none of the genres the Music type declares and is accepted |
| MusicValidation.EmptyFieldMessages | src/validation/music.ts:6-9 | each empty field adds its own message; all three empty give exactly the three messages in order |
| UserValidation.Login | src/validation/user.ts:4-13 | succeeds iff the email is a well-formed string and the password a string of at least 6 characters, returning both |
| UserValidation.Register | src/validation/user.ts:15-32 | succeeds iff names, address, phone are non-empty, email well-formed, password >= 6 characters, dob a valid Date and gender M/F/O; failures are non-empty |
| UserValidation.Update | src/validation/user.ts:34-45 | succeeds iff names, phone, address are non-empty, email well-formed, dob any string and gender M/F/O; failures are non-empty |
| UserValidation.ShortPasswordRefused | src/validation/user.ts:7-24 | a 5-character password makes login and registration fail with the password message |
| UserValidation.SixCharacterPasswordAccepted | src/validation/user.ts:7-24 | with a 6-character password login reports only email issues, and passing login or registration bodies keep passing |
| UserValidation.DobTypesDiffer | src/validation/user.ts:25-40 | a string dob always fails registration; a Date dob always fails the update |
| UserValidation.UpdateIgnoresPassword | src/validation/user.ts:34-45 | setting or removing the password never changes the update outcome |
| UserValidation.RegisterAddressMessage | src/validation/user.ts:19 | an empty address fails registration with "Last name is required" |
| UserValidation.GenderRuleShared | src/validation/user.ts:26-41 | a gender outside M/F/O fails both registration and update |
| CheckRole.CheckRole | src/middleware/check-role.ts:4-11 | calls next iff a user is attached whose role is exactly the configured role; otherwise responds 403 "Access denied" and does not call next |
| CheckRole.OneRolePerGuard | src/middleware/check-role.ts:4-6 | if guards for two roles both pass a request, the roles are the same |
| CheckRole.RoleNamesDistinct | src/types/index.ts:4 | the three role strings are distinct |
| CheckRole.NoUserDenied | src/middleware/check-role.ts:6-8 | a request with no attached user is refused with 403 |
| Auth.BearerToken | src/middleware/auth.ts:14-16 | no header gives no token; a token is non-empty and contains no space |
| Auth.SecondSegmentIsToken | src/middleware/auth.ts:14 | for "scheme token" and "scheme token more" the token is the second segment, whatever the scheme is |
| Auth.NoSecondSegment | src/middleware/auth.ts:14-18 | a header without a space, and "scheme " with an empty second segment, give no token |
| Auth.Decide | src/middleware/auth.ts:14-26 | no token gives 401 "No token provided"; a token verify rejects gives 401 "Token is not valid"; claims are attached iff the token verifies, and they are verify's claims |
| Auth.Authenticate | src/middleware/auth.ts:9-28 | on rejection sends the 401 and leaves req.user unchanged; on success sets req.user to the decoded claims and calls next |
| ErrorHandler.HandleError | src/middleware/error-handler.ts:5-25 | an HttpError gives its status and {status:"error", message}; any other error gives 500 "Internal server error" |
| ErrorHandler.Deliver | src/utils/async-wrapper.ts:9-13 | a sent response reaches the client as is; a thrown error reaches it as errorHandler's response |
| ErrorHandler.HttpErrorPreserved | src/utils/http-error.ts:5-7 | the response carries the HttpError's constructor status and message |
| ErrorHandler.OtherErrorsHidden | src/middleware/error-handler.ts:21-24 | every non-HttpError gives the same 500 response, and a message other than the generic one never appears |
| ErrorHandler.StatusIsAlwaysError | src/middleware/error-handler.ts:14-23 | the body's status field is "error" on both branches |
| Database.InsertKeepsNamesUnique | src/controllers/artitst-controller.ts:33-57 | inserting an artist whose name is not taken, under a fresh id, keeps names unique |
| Database.InsertKeepsEmailsUnique | src/controllers/user-controller.ts:21-49 | inserting a user whose email is not taken, under a fresh id, keeps emails unique |
| Database.OverwriteCanDuplicateName | src/controllers/artitst-controller.ts:141-165 | overwriting a row with a name another row holds always leaves two artists with that name |
| Database.Database.InsertArtist | src/controllers/artitst-controller.ts:42-57 | adds the row under the artist counter's value, which no row has, and advances only that counter |
| Database.Database.UpdateArtist | src/controllers/artitst-controller.ts:150-165 | replaces the row with that id if there is one; nothing else changes, counters included |
| Database.Database.DeleteArtist | src/controllers/artitst-controller.ts:180-185 | removes the row with that id and reports a row count of 1 if it existed, else 0; counters unchanged |
| Database.Database.InsertMusic | src/controllers/music-controller.ts:71-78 | adds the row under the music counter's value, which no row has, and advances only that counter |
| Database.Database.UpdateMusic | src/controllers/music-controller.ts:128-134 | replaces the row with that id if there is one; nothing else changes, counters included |
| Database.Database.DeleteMusic | src/controllers/music-controller.ts:102-105 | removes the row with that id and nothing else; counters unchanged |
| Database.Database.InsertUser | src/controllers/user-controller.ts:33-49 | adds the row under the user counter's value, which no row has, and advances only that counter |
| ArtistController.PrepareArtist | src/controllers/artitst-controller.ts:13-27 | dob is parsed first: an unparsable dob is the BadDob rejection whatever the other fields are; otherwise the validation messages or a row that matches the body with the parsed dob |
| ArtistController.PreparedFieldsFromBody | src/controllers/artitst-controller.ts:29-55 | a prepared row carries the body's name, gender, year, address and album count, with year >= 1900 and albums >= 0 |
| ArtistController.CreateArtist | src/controllers/artitst-controller.ts:9-66 | bad dob or failed validation throws 400 (messages joined by ", ") with the table unchanged; a taken name answers 400 "Artist already exists" unchanged; otherwise exactly one row is added under a fresh id and returned with 201, advancing only the artist counter; name uniqueness is preserved; other tables unchanged |
| ArtistController.GetArtistById | src/controllers/artitst-controller.ts:81-101 | 404 "Artist not found" iff no row has the id, else 200 with that row |
| ArtistController.UpdateArtistById | src/controllers/artitst-controller.ts:103-172 | dob and validation are checked before the lookup, so an invalid body on a missing id gives 400; a missing id gives 404 unchanged; otherwise only that row is replaced by the six new fields, and if another row holds the new name the table is left with a duplicate; counters unchanged |
| ArtistController.DeleteArtistById | src/controllers/artitst-controller.ts:174-194 | removes only that row; 404 iff it did not exist; songs are untouched |
| ArtistExport.Chunks | src/controllers/artitst-controller.ts:279-286 | at least one chunk, and every chunk but the last ends in "}" |
| ArtistExport.Reappend | src/controllers/artitst-controller.ts:281-286 | every piece but the last gains a "}", the last is unchanged, the count is kept |
| ArtistExport.ChunksRejoin | src/controllers/artitst-controller.ts:279-286 | joining the chunks with "," reproduces the query's data string |
| ArtistExport.CsvLine | src/controllers/artitst-controller.ts:288-296 | a line is one character longer than its joined cells and ends in a newline |
| ArtistExport.CsvLineText | src/controllers/artitst-controller.ts:295 | before its final newline a line holds exactly its cells joined by "," |
| ArtistExport.CsvRows | src/controllers/artitst-controller.ts:294-296 | the row lines are empty exactly when there are no rows, and otherwise end in a newline |
| ArtistExport.Csv | src/controllers/artitst-controller.ts:288-296 | the CSV is the header line and the row lines joined by newlines, with a final newline |
| ArtistExport.Lines | src/controllers/artitst-controller.ts:288-296 | the header's joined cells first, then each row's joined cells in row order |
| ArtistExport.BuildCsv | src/controllers/artitst-controller.ts:288-296 | the loop yields the header line followed by one line per row |
| ArtistExport.Table | src/controllers/artitst-controller.ts:289-292 | one line of cells per chunk, and cell j of line i is chunk i's value for column j |
| ArtistExport.ImportArtist | src/controllers/artitst-controller.ts:256-302 | 500 {error:"Internal Server Error"} exactly when some chunk is not JSON; otherwise 200 with the CSV of the decoded chunks under the column names |
| ArtistExport.EmptyTableExport | src/controllers/artitst-controller.ts:269-292 | on an empty table the data string "[]" is one chunk, so the table has one line, with one cell per column taken from the decoded "[]" |
| ArtistExport.CsvLinesRecovered | src/controllers/artitst-controller.ts:288-296 | without newlines in cells, splitting the CSV at newlines gives the header, each row's line and a final empty rest: rows + 1 lines, each ending in a newline |
| ArtistExport.CsvCellsRecovered | src/controllers/artitst-controller.ts:295 | without commas in cells, a row's line splits back into its cells |
| ArtistExport.CommaInCellSplits | src/controllers/artitst-controller.ts:295 | for any comma-free a and b, the cell a + "," + b splits back as the two cells a and b |
| ArtistExport.CommaCellAddsCell | src/controllers/artitst-controller.ts:295 | a row line with one comma cell reads back with one cell more than the row has: that cell's two halves in its place |
| MusicController.RowFrom | src/controllers/music-controller.ts:71-75 | the row holds the body's title, album_name, artist_id and genre, absent ones as NULL |
| MusicController.GetMusicById | src/controllers/music-controller.ts:19-36 | 404 "Music not found" iff no row has the id, else 200 with that row |
| MusicController.GetMusicByArtistId | src/controllers/music-controller.ts:38-55 | 404 iff no row has that artist_id; otherwise exactly the rows with that artist_id |
| MusicController.CreateMusic | src/controllers/music-controller.ts:57-85 | failed validation answers 400 with the message list and inserts nothing; otherwise one row with the four body values is added under a fresh id and returned with 201, advancing only the music counter, with no artist check |
| MusicController.DeleteMusicById | src/controllers/music-controller.ts:87-110 | missing id gives 404 and no change; otherwise only that row is removed and "Music deleted" returned |
| MusicController.UpdateMusicById | src/controllers/music-controller.ts:112-141 | missing id gives 404 and no change; otherwise only that row is overwritten with the four body values, unvalidated |
| UserController.RoleOrDefault | src/controllers/user-controller.ts:18 | an absent role becomes "super_admin"; a present one is kept |
| UserController.NewUser | src/controllers/user-controller.ts:30-48 | the stored password is the hash, the email and role those of the body |
| UserController.CreateUser | src/controllers/user-controller.ts:8-56 | a taken email throws 400 "Email already exists" and inserts nothing; a hashing failure throws and inserts nothing; otherwise exactly one row with the hashed password is added and returned with 201, advancing only the user counter; email uniqueness is preserved |
| UserController.LoginClaims | src/controllers/user-controller.ts:75-89 | the payload passed to `jwt.sign` has exactly the keys userId and email |
| UserController.LoginResponse | src/controllers/user-controller.ts:75-94 | 200 with two tokens over the same claims: the access token signed with the access secret for "15m", the refresh token with the refresh secret for "7d", so they differ |
| UserController.LoginUser | src/controllers/user-controller.ts:57-95 | an unknown email and a wrong password both throw the same 401 "Invalid credentials"; success returns tokens for a user with that email whose password matched; under unique emails, a bcrypt rejection of the password throws an error other than an HttpError (a 500) |
| UserController.FailedLoginResponse | src/controllers/user-controller.ts:64-73 | the failed login reaches the client as 401 {status:"error", message:"Invalid credentials"} |
| UserController.LoginClaimsPassNoGuard | src/controllers/user-controller.ts:75-89 | login claims hold no role, so every role guard refuses them with 403 |

## Left out

- src/db.ts, src/index.ts, src/app.ts and src/routes/*.ts: connection, table creation, server start and routing are I/O and wiring.
- Storage is the `Database` class, not Postgres. Column types, NOT NULL, CHECK, enum types, the UNIQUE email constraint and the foreign key are not enforced. `=` is compared on the values as given, without Postgres's text coercion. Route ids are integers, so a non-numeric id, which Postgres rejects, is not modelled. For most handlers that rejection ends in their 500 catch. In `deleteMusicById` and `updateMusicById` the existence query sits outside the `try` (src/controllers/music-controller.ts:93-96 and 119-122), and the music handlers are not wrapped, so there the rejection never becomes the handler's 500.
- Each handler runs as one atomic step against the tables, so requests are taken to run one at a time. In the code the uniqueness SELECT and the INSERT are separate awaits (src/controllers/artitst-controller.ts:33-57, src/controllers/user-controller.ts:21-49), and two requests can interleave between them. The artist table has no UNIQUE constraint on `name`, so two concurrent `createArtist` calls with one name can both insert. The preserved `NamesUnique` and `EmailsUnique` of `CreateArtist` and `CreateUser` hold only when requests do not interleave.
- The 500 catch branches for storage errors: storage never fails in the model.
- The "Failed to create user" branch of `createUser` cannot be reached here, because the modelled INSERT always returns its row.
- bcrypt, jsonwebtoken, `new Date(...)`, zod's email syntax and `JSON.parse` are parameters with no properties. In particular nothing ties `parses` to the chunk text, so the model does not derive that an artist text value containing "}," makes the export fail with 500.
- The export's SQL query (`to_json` of every row, `array_to_string`, the column names from `information_schema`) is not modelled: the data string and the column names are parameters of `ImportArtist`. src/helpers/generate-token.ts is not part of this model. The salt rounds read from the environment are part of the `hash` parameter.
- `uploadArtists`: file streaming, the CSV parser and the concurrent inserts.
- `getArtists` and `getMusic` (plain `SELECT *` listings) and the 500 bodies that carry the error object.
- The JSON request body is assumed to be an object. The zod issue for a body that is not an object is not modelled. The received type name "nan" is not modelled either, because JSON cannot carry NaN.
- String lengths count Dafny characters. zod counts UTF-16 code units.
- src/utils/async-wrapper.ts is modelled only as `ErrorHandler.Deliver`. Promise plumbing and console logging are left out.
- MusicController.GetMusicByArtistId: the rows are returned as a map from id to row, because the query has no ORDER BY; the order in which Postgres lists them is not modelled.
- UserController.LoginUser: when several rows share an email (impossible while `EmailsUnique` holds), it states only that the tokens belong to some matching user whose password matched, as `rows[0]` is whichever row Postgres returns first.
- A token is modelled by the payload passed to `jwt.sign`. The `iat` and `exp` claims jsonwebtoken adds, and the expiry check `jwt.verify` makes, are not modelled; neither adds a role, so `UserController.LoginClaimsPassNoGuard` is unaffected.
- Auth.Authenticate: the JWT payload is taken to be a JSON object. A string payload is not modelled.
