/**
 * The storage the controllers talk to: the three tables as maps from a row's
 * `id` to the row, with a SERIAL counter per table that gives the id of the
 * next inserted row. Each method is one SQL statement of the handlers.
 * Nothing here enforces column types, NOT NULL, UNIQUE or foreign keys:
 * the uniqueness the application relies on is what its own checks give.
 */
module Database {
  import opened Json
  import opened Types

  /** No two artists share a name. */
  predicate NamesUnique(artists: map<int, ArtistRow>) {
    forall i, j :: i in artists && j in artists && i != j ==> artists[i].name != artists[j].name
  }

  /** `SELECT * FROM artist WHERE name = $1` finds a row. */
  predicate NameTaken(artists: map<int, ArtistRow>, name: string) {
    exists i :: i in artists && artists[i].name == name
  }

  /** No two users share a (non-NULL) email, the application's reading of the UNIQUE column. */
  predicate EmailsUnique(users: map<int, UserRow>) {
    forall i, j :: i in users && j in users && i != j ==> !SqlEquals(users[i].email, users[j].email)
  }

  /** `SELECT * FROM "User" WHERE email = $1` finds a row. */
  predicate EmailTaken(users: map<int, UserRow>, email: Value) {
    exists i :: i in users && SqlEquals(users[i].email, email)
  }

  /** Adding an artist whose name is not taken keeps names unique. */
  lemma {:induction false} InsertKeepsNamesUnique(artists: map<int, ArtistRow>, id: int, row: ArtistRow)
    requires NamesUnique(artists) && !NameTaken(artists, row.name) && id !in artists
    ensures NamesUnique(artists[id := row])
  {
    var m := artists[id := row];
    forall i, j | i in m && j in m && i != j ensures m[i].name != m[j].name {
      if i == id {
        assert j in artists && artists[j].name != row.name;
      } else if j == id {
        assert i in artists && artists[i].name != row.name;
      }
    }
  }

  /** Adding a user whose email is not taken keeps emails unique. */
  lemma {:induction false} InsertKeepsEmailsUnique(users: map<int, UserRow>, id: int, row: UserRow)
    requires EmailsUnique(users) && !EmailTaken(users, row.email) && id !in users
    ensures EmailsUnique(users[id := row])
  {
    var m := users[id := row];
    forall i, j | i in m && j in m && i != j ensures !SqlEquals(m[i].email, m[j].email) {
      if i == id {
        assert j in users && !SqlEquals(users[j].email, row.email);
      } else if j == id {
        assert i in users && !SqlEquals(users[i].email, row.email);
      }
    }
  }

  /**
   * Overwriting a row, as an artist update does without a name check, breaks
   * uniqueness whenever another row already holds the new name.
   */
  lemma {:induction false} OverwriteCanDuplicateName(artists: map<int, ArtistRow>, id: int, row: ArtistRow)
    requires id in artists && NameTaken(artists - {id}, row.name)
    ensures !NamesUnique(artists[id := row])
  {
    var other :| other in artists - {id} && (artists - {id})[other].name == row.name;
    var m := artists[id := row];
    assert other in m && id in m && other != id && m[other].name == m[id].name;
  }

  class Database {
    var artists: map<int, ArtistRow>
    var music: map<int, MusicRow>
    var users: map<int, UserRow>
    var nextArtistId: int
    var nextMusicId: int
    var nextUserId: int

    /** Every id was handed out by its table's counter, which starts at 1. */
    ghost predicate Valid()
      reads this
    {
      && 1 <= nextArtistId && 1 <= nextMusicId && 1 <= nextUserId
      && (forall id :: id in artists ==> 1 <= id < nextArtistId)
      && (forall id :: id in music ==> 1 <= id < nextMusicId)
      && (forall id :: id in users ==> 1 <= id < nextUserId)
    }

    /** No SERIAL counter moved: only an INSERT advances one. */
    twostate predicate CountersUnchanged()
      reads this
    {
      && nextArtistId == old(nextArtistId)
      && nextMusicId == old(nextMusicId)
      && nextUserId == old(nextUserId)
    }

    constructor ()
      ensures Valid()
      ensures artists == map[] && music == map[] && users == map[]
      ensures nextArtistId == 1 && nextMusicId == 1 && nextUserId == 1
    {
      artists, music, users := map[], map[], map[];
      nextArtistId, nextMusicId, nextUserId := 1, 1, 1;
    }

    /** `INSERT INTO artist ... RETURNING *`. */
    method InsertArtist(row: ArtistRow) returns (id: int)
      requires Valid()
      modifies this
      ensures Valid()
      ensures id == old(nextArtistId) && id !in old(artists)
      ensures artists == old(artists)[id := row]
      ensures music == old(music) && users == old(users)
      ensures nextArtistId == old(nextArtistId) + 1
      ensures nextMusicId == old(nextMusicId) && nextUserId == old(nextUserId)
    {
      id := nextArtistId;
      artists := artists[id := row];
      nextArtistId := nextArtistId + 1;
    }

    /** `UPDATE artist SET ... WHERE id = $7`: changes the row if there is one. */
    method UpdateArtist(id: int, row: ArtistRow)
      requires Valid()
      modifies this
      ensures Valid()
      ensures artists == if id in old(artists) then old(artists)[id := row] else old(artists)
      ensures music == old(music) && users == old(users)
      ensures CountersUnchanged()
    {
      if id in artists {
        artists := artists[id := row];
      }
    }

    /** `DELETE FROM artist WHERE id = $1`, with the number of rows removed. */
    method DeleteArtist(id: int) returns (rowCount: nat)
      requires Valid()
      modifies this
      ensures Valid()
      ensures rowCount == if id in old(artists) then 1 else 0
      ensures artists == old(artists) - {id}
      ensures music == old(music) && users == old(users)
      ensures CountersUnchanged()
    {
      rowCount := if id in artists then 1 else 0;
      artists := artists - {id};
    }

    /** `INSERT INTO music ... RETURNING *`. */
    method InsertMusic(row: MusicRow) returns (id: int)
      requires Valid()
      modifies this
      ensures Valid()
      ensures id == old(nextMusicId) && id !in old(music)
      ensures music == old(music)[id := row]
      ensures artists == old(artists) && users == old(users)
      ensures nextMusicId == old(nextMusicId) + 1
      ensures nextArtistId == old(nextArtistId) && nextUserId == old(nextUserId)
    {
      id := nextMusicId;
      music := music[id := row];
      nextMusicId := nextMusicId + 1;
    }

    /** `UPDATE music SET ... WHERE id = $5`. */
    method UpdateMusic(id: int, row: MusicRow)
      requires Valid()
      modifies this
      ensures Valid()
      ensures music == if id in old(music) then old(music)[id := row] else old(music)
      ensures artists == old(artists) && users == old(users)
      ensures CountersUnchanged()
    {
      if id in music {
        music := music[id := row];
      }
    }

    /** `DELETE FROM music WHERE id = $1`. */
    method DeleteMusic(id: int)
      requires Valid()
      modifies this
      ensures Valid()
      ensures music == old(music) - {id}
      ensures artists == old(artists) && users == old(users)
      ensures CountersUnchanged()
    {
      music := music - {id};
    }

    /** `INSERT INTO "User" ... RETURNING *`. */
    method InsertUser(row: UserRow) returns (id: int)
      requires Valid()
      modifies this
      ensures Valid()
      ensures id == old(nextUserId) && id !in old(users)
      ensures users == old(users)[id := row]
      ensures artists == old(artists) && music == old(music)
      ensures nextUserId == old(nextUserId) + 1
      ensures nextArtistId == old(nextArtistId) && nextMusicId == old(nextMusicId)
    {
      id := nextUserId;
      users := users[id := row];
      nextUserId := nextUserId + 1;
    }
  }
}
