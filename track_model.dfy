/**
  The `Track` collection's schema (models/trackModel.js): the document shape,
  the field constraints (enums, lengths, the `trackURL` character class, the
  upload-date window), the counter defaults, the pre-save check that the
  uploader exists, and the unique index on `trackURL`.
 */
module TrackModel {
  import opened Common
  import opened UserModel

  const GENRES: set<string> := {"Pop", "Rock", "Dance", "Country", "Alternative"}
  const TRACK_CITIES: set<string> := {"Belfast", "Derry"}
  const TITLE_MAX_LENGTH := 100
  const DESCRIPTION_MAX_LENGTH := 4000
  const TRACK_URL_MIN_LENGTH := 3
  const TRACK_URL_MAX_LENGTH := 255
  const CITY_MIN_LENGTH := 5
  const CITY_MAX_LENGTH := 20
  /** Thirty minutes, in milliseconds. */
  const THIRTY_MINUTES := 30 * 60 * 1000

  const NO_UPLOADER := "No User associated with uploaderID"

  /** An embedded comment. */
  datatype Comment = Comment(user: ObjectId, datePosted: string, body: string)

  /**
    A stored track. Times are milliseconds since the epoch; `trackBinaryId`
    names a file of the `trackBinaryFiles` bucket.
   */
  datatype Track = Track(
    title: string,
    genre: string,
    description: string,
    trackURL: string,
    city: string,
    numPlays: int,
    numLikes: int,
    numComments: int,
    uploaderId: ObjectId,
    dateUploaded: int,
    trackBinaryId: ObjectId,
    comments: seq<Comment>)

  /**
    `new Track({...})` with the request's fields: `numPlays`, `numLikes` and
    `numComments` take their default 0 and there are no comments yet.
   */
  function NewTrack(title: string, genre: string, city: string, trackURL: string, dateUploaded: int,
                    uploaderId: ObjectId, description: string, trackBinaryId: ObjectId): (t: Track)
    ensures t.numPlays == 0 && t.numLikes == 0 && t.numComments == 0 && t.comments == []
    ensures t.uploaderId == uploaderId && t.trackBinaryId == trackBinaryId
    ensures t.title == title && t.genre == genre && t.city == city && t.trackURL == trackURL
    ensures t.dateUploaded == dateUploaded && t.description == description
  {
    Track(title, genre, description, trackURL, city, 0, 0, 0, uploaderId, dateUploaded, trackBinaryId, [])
  }

  // ---------------------------------------------------------------------
  // Field constraints
  // ---------------------------------------------------------------------

  /**
    One character of the class `[-a-zA-z0-9_]` as the schema writes it. The
    range `A-z` runs from ASCII 65 to 122, so it takes in `a-z` and `_` and
    also the six characters between `Z` and `a`: `[ \ ] ^ _` and the backtick.
   */
  predicate TrackURLChar(c: char)
  {
    c == '-' || ('a' <= c <= 'z') || ('A' <= c <= 'z') || ('0' <= c <= '9') || c == '_'
  }

  /** The `trackURL` regular expression `^[-a-zA-z0-9_]*$`. */
  function TrackURLPattern(s: string): (r: bool)
    ensures r <==> forall i :: 0 <= i < |s| ==> s[i] == '-' || ('0' <= s[i] <= '9') || ('A' <= s[i] <= 'z')
  {
    forall i :: 0 <= i < |s| ==> TrackURLChar(s[i])
  }

  /** The class admits the punctuation between `Z` and `a`, and rejects a space. */
  lemma TrackURLPatternAdmitsPunctuation()
    ensures TrackURLPattern("a[b]c^d`e\\f")
    ensures !TrackURLPattern("a b")
  {
    assert "a b"[1] == ' ';
  }

  /** `trackURL`: 3 to 255 characters of the class above. */
  predicate TrackURLValid(s: string)
  {
    TRACK_URL_MIN_LENGTH <= |s| <= TRACK_URL_MAX_LENGTH && TrackURLPattern(s)
  }

  /**
    `dateUploadedValidator`: a date is rejected when it is after now plus
    thirty minutes or before now minus thirty minutes, so both ends of the
    window are accepted.
   */
  function DateUploadedValid(date: int, now: int): (r: bool)
    ensures r <==> now - THIRTY_MINUTES <= date <= now + THIRTY_MINUTES
  {
    !(date > now + THIRTY_MINUTES || date < now - THIRTY_MINUTES)
  }

  /**
    The track `city` path: required, 5 to 20 characters, and one of the
    enumeration. The length bounds never reject an enumeration value.
   */
  function TrackCityValid(city: string): (r: bool)
    ensures r <==> city in TRACK_CITIES
  {
    city != "" && CITY_MIN_LENGTH <= |city| <= CITY_MAX_LENGTH && city in TRACK_CITIES
  }

  /**
    Every path validator of a track: `title` required and at most 100
    characters, `genre` required and one of the enumeration, `description`
    at most 4000 characters, `trackURL`, `city` and `dateUploaded` as above.
    `uploaderId` and `trackBinaryId`, also required, are always present here.
   */
  predicate TrackFieldsValid(t: Track, now: int)
  {
    && t.title != "" && |t.title| <= TITLE_MAX_LENGTH
    && t.genre != "" && t.genre in GENRES
    && |t.description| <= DESCRIPTION_MAX_LENGTH
    && TrackURLValid(t.trackURL)
    && TrackCityValid(t.city)
    && DateUploadedValid(t.dateUploaded, now)
  }

  // ---------------------------------------------------------------------
  // Saving a track
  // ---------------------------------------------------------------------

  /**
    The pre-save hook: a read-only lookup that fails with the message
    "No User associated with uploaderID" exactly when no user has the
    track's `uploaderId`.
   */
  function PreSaveUploader(users: map<ObjectId, User>, t: Track): (r: Option<string>)
    ensures r.None? <==> t.uploaderId in users
    ensures r.Some? ==> r.value == NO_UPLOADER
  {
    if t.uploaderId in users then None else Some(NO_UPLOADER)
  }

  datatype TrackSaveFailure = TrackValidationFailed | NoUploader | DuplicateTrackURL | TrackWriteFailed

  predicate TrackURLTaken(tracks: map<ObjectId, Track>, id: ObjectId, url: string)
  {
    exists k :: k in tracks && k != id && tracks[k].trackURL == url
  }

  /** The unique index on `trackURL` holds. */
  ghost predicate UniqueTrackURLs(tracks: map<ObjectId, Track>)
  {
    forall a, b :: a in tracks && b in tracks && a != b ==> tracks[a].trackURL != tracks[b].trackURL
  }

  /**
    `track.save()` of a document to be stored under `id`: validation, then the
    pre-save uploader check, then the unique index on `trackURL`, then the
    write, whose success is `writeOk`. None means the document was stored.
   */
  function SaveTrack(users: map<ObjectId, User>, tracks: map<ObjectId, Track>, id: ObjectId,
                     doc: Track, now: int, writeOk: bool): (r: Option<TrackSaveFailure>)
    ensures r.None? <==>
      TrackFieldsValid(doc, now) && doc.uploaderId in users && !TrackURLTaken(tracks, id, doc.trackURL) && writeOk
    ensures r == Some(NoUploader) <==> TrackFieldsValid(doc, now) && doc.uploaderId !in users
  {
    if !TrackFieldsValid(doc, now) then Some(TrackValidationFailed)
    else if PreSaveUploader(users, doc).Some? then Some(NoUploader)
    else if TrackURLTaken(tracks, id, doc.trackURL) then Some(DuplicateTrackURL)
    else if !writeOk then Some(TrackWriteFailed)
    else None
  }

  /** A successful save keeps the unique index on `trackURL`. */
  lemma SaveKeepsUniqueTrackURLs(users: map<ObjectId, User>, tracks: map<ObjectId, Track>, id: ObjectId,
                                 doc: Track, now: int, writeOk: bool)
    requires UniqueTrackURLs(tracks)
    requires SaveTrack(users, tracks, id, doc, now, writeOk).None?
    ensures UniqueTrackURLs(tracks[id := doc])
  {
    var m := tracks[id := doc];
    forall a, b | a in m && b in m && a != b
      ensures m[a].trackURL != m[b].trackURL
    {
      if a == id {
        assert b in tracks && b != id;
      } else if b == id {
        assert a in tracks && a != id;
      }
    }
  }
}
