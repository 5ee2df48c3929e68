/**
 * The music handlers. Creation validates title, album name and genre, then
 * writes the body's values; the update writes the body's values without
 * validating them. No handler checks that `artist_id` names an artist.
 */
module MusicController {
  import opened Wrappers
  import opened Json
  import opened Types
  import opened Http
  import opened Database
  import MusicValidation

  const NotFound := Response(404, MessagePayload("Music not found"))

  /** The row an INSERT or UPDATE writes: the four body values, absent ones as NULL. */
  function RowFrom(body: Object): (row: MusicRow)
    ensures row.title == SqlParam(Get(body, "title")) && row.albumName == SqlParam(Get(body, "album_name"))
    ensures row.artistId == SqlParam(Get(body, "artist_id")) && row.genre == SqlParam(Get(body, "genre"))
  {
    MusicRow(SqlParam(Get(body, "title")), SqlParam(Get(body, "album_name")),
             SqlParam(Get(body, "artist_id")), SqlParam(Get(body, "genre")))
  }

  /** `getMusicById`: the row, or 404 exactly when there is none. */
  method GetMusicById(db: Database, id: int) returns (out: Outcome)
    ensures id !in db.music <==> out == Reply(NotFound)
    ensures id in db.music ==> out == Reply(Response(200, DataPayload(None, MusicRecord(id, db.music[id]))))
  {
    if id !in db.music {
      return Reply(NotFound);
    }
    out := Reply(Response(200, DataPayload(None, MusicRecord(id, db.music[id]))));
  }

  /** `getMusicByArtistId`: exactly the rows whose `artist_id` is that id; 404 when there are none. */
  method GetMusicByArtistId(db: Database, artistId: int) returns (out: Outcome)
    ensures (forall id :: id in db.music ==> db.music[id].artistId != Num(artistId as real)) <==> out == Reply(NotFound)
    ensures out != Reply(NotFound) ==>
              out.Reply? && out.response.status == 200 && out.response.payload.MusicListPayload?
              && (forall id :: id in out.response.payload.rows <==>
                                 id in db.music && db.music[id].artistId == Num(artistId as real))
              && (forall id :: id in out.response.payload.rows ==> out.response.payload.rows[id] == db.music[id])
  {
    var rows := map id | id in db.music && db.music[id].artistId == Num(artistId as real) :: db.music[id];
    if !exists id | id in db.music :: db.music[id].artistId == Num(artistId as real) {
      return Reply(NotFound);
    }
    out := Reply(Response(200, MusicListPayload(rows)));
  }

  /**
   * `createMusic`: a failed validation answers 400 with the list of messages
   * and inserts nothing; otherwise one row with the four body values is
   * inserted and returned with 201.
   */
  method CreateMusic(db: Database, body: Object) returns (out: Outcome)
    requires db.Valid()
    modifies db
    ensures db.Valid()
    ensures db.artists == old(db.artists) && db.users == old(db.users)
    ensures MusicValidation.Validate(body).Failure? ==>
              out == Reply(Response(400, MessagesPayload(MusicValidation.Validate(body).error)))
              && db.music == old(db.music) && db.CountersUnchanged()
    ensures MusicValidation.Validate(body).Success? ==>
              && old(db.nextMusicId) !in old(db.music)
              && db.music == old(db.music)[old(db.nextMusicId) := RowFrom(body)]
              && db.nextMusicId == old(db.nextMusicId) + 1
              && db.nextArtistId == old(db.nextArtistId) && db.nextUserId == old(db.nextUserId)
              && out == Reply(Response(201, DataPayload(Some("Music created successfully"),
                                                        MusicRecord(old(db.nextMusicId), RowFrom(body)))))
  {
    var validation := MusicValidation.Validate(body);
    if validation.Failure? {
      return Reply(Response(400, MessagesPayload(validation.error)));
    }
    var row := RowFrom(body);
    var id := db.InsertMusic(row);
    out := Reply(Response(201, DataPayload(Some("Music created successfully"), MusicRecord(id, row))));
  }

  /** `deleteMusicById`: 404 and no change for a missing id, else that row alone is removed. */
  method DeleteMusicById(db: Database, id: int) returns (out: Outcome)
    requires db.Valid()
    modifies db
    ensures db.Valid() && db.CountersUnchanged()
    ensures db.artists == old(db.artists) && db.users == old(db.users)
    ensures id !in old(db.music) ==> out == Reply(NotFound) && db.music == old(db.music)
    ensures id in old(db.music) ==>
              out == Reply(Response(200, MessagePayload("Music deleted"))) && db.music == old(db.music) - {id}
  {
    if id !in db.music {
      return Reply(NotFound);
    }
    db.DeleteMusic(id);
    out := Reply(Response(200, MessagePayload("Music deleted")));
  }

  /**
   * `updateMusicById`: 404 for a missing id; otherwise title, album name,
   * artist id and genre of that row are overwritten with the body's values,
   * unvalidated, and no other row changes.
   */
  method UpdateMusicById(db: Database, id: int, body: Object) returns (out: Outcome)
    requires db.Valid()
    modifies db
    ensures db.Valid() && db.CountersUnchanged()
    ensures db.artists == old(db.artists) && db.users == old(db.users)
    ensures id !in old(db.music) ==> out == Reply(NotFound) && db.music == old(db.music)
    ensures id in old(db.music) ==>
              && db.music == old(db.music)[id := RowFrom(body)]
              && out == Reply(Response(200, DataPayload(Some("Music updated successfully"), MusicRecord(id, RowFrom(body)))))
  {
    if id !in db.music {
      return Reply(NotFound);
    }
    var row := RowFrom(body);
    db.UpdateMusic(id, row);
    out := Reply(Response(200, DataPayload(Some("Music updated successfully"), MusicRecord(id, row))));
  }
}
