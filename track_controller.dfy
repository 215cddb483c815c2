/**
  The handlers of controllers/trackController.js: the audio read, the track
  listing (filter, sort by plays, page), the city chart, the upload form
  check, the upload sequence with its compensation, comments, the title and
  description edits, and the ownership check of the delete route.

  A query's "natural order" (the order the database returns documents in
  before sorting) is an input, `order`, listing each stored id once.
 */
module TrackController {
  import opened Common
  import opened MongoArrays
  import opened UserModel
  import opened TrackModel
  import opened Store
  import opened Paging

  // ---------------------------------------------------------------------
  // Reading audio
  // ---------------------------------------------------------------------

  const INVALID_TRACK_ID := "Invalid trackID"
  const NOT_FOUND := "Not Found"
  const BAD_REQUEST := "Bad Request"
  const INTERNAL_SERVER_ERROR := "Internal Server Error"

  /** What the audio read answers. */
  datatype StreamReply = StreamError(response: Response) | Stream(bytes: seq<byte>)

  /**
    `getTrackStreamByGridFSId`: a malformed id gives 400; the stored file's
    bytes when there is one, 404 otherwise.
   */
  function TrackStream(files: map<ObjectId, seq<byte>>, trackId: RawId): (r: StreamReply)
    ensures trackId.Malformed? ==> r == StreamError(Reply(400, INVALID_TRACK_ID))
    ensures r.Stream? <==> trackId.Valid? && trackId.id in files
    ensures r.Stream? ==> r.bytes == files[trackId.id]
    ensures trackId.Valid? && trackId.id !in files ==> r == StreamError(Reply(404, NOT_FOUND))
  {
    if trackId.Malformed? then StreamError(Reply(400, INVALID_TRACK_ID))
    else if trackId.id in files then Stream(files[trackId.id])
    else StreamError(Reply(404, NOT_FOUND))
  }

  // ---------------------------------------------------------------------
  // Query filters, sorting by plays
  // ---------------------------------------------------------------------

  /** The mongoose query filters the listing handlers build. */
  datatype TrackFilter =
    | MatchAll
    | ByTitle(title: string)
    | ByTrackURL(trackURL: string)
    | ByTitleAndTrackURL(title: string, trackURL: string)
    | ByCity(city: string)

  predicate Matches(f: TrackFilter, t: Track)
  {
    match f
    case MatchAll => true
    case ByTitle(title) => t.title == title
    case ByTrackURL(url) => t.trackURL == url
    case ByTitleAndTrackURL(title, url) => t.title == title && t.trackURL == url
    case ByCity(city) => t.city == city
  }

  /**
    The filter of `getTracks`: both query strings, one of them, or neither
    (match all). Each query string given constrains its own field and nothing
    else.
   */
  function SelectFilter(title: Option<string>, trackURL: Option<string>): (f: TrackFilter)
    ensures forall t :: Matches(f, t) <==>
      (Present(title) ==> t.title == title.value) && (Present(trackURL) ==> t.trackURL == trackURL.value)
  {
    if Present(title) && Present(trackURL) then ByTitleAndTrackURL(title.value, trackURL.value)
    else if Present(title) then ByTitle(title.value)
    else if Present(trackURL) then ByTrackURL(trackURL.value)
    else MatchAll
  }

  /** The ids of the tracks listed in `order` that are stored and match `f`. */
  function ListedMatches(tracks: map<ObjectId, Track>, order: seq<ObjectId>, f: TrackFilter): set<ObjectId>
  {
    set id | id in order && id in tracks && Matches(f, tracks[id])
  }

  /**
    The stored tracks listed in `order` that match, in that order. Every
    result is a stored, matching track; every stored matching track listed
    in `order` is a result; and when `order` repeats no id there is one
    result per such track.
   */
  function Matching(tracks: map<ObjectId, Track>, order: seq<ObjectId>, f: TrackFilter): (r: seq<Track>)
    ensures |r| <= |order|
    ensures forall t :: t in r ==> Matches(f, t) && t in tracks.Values
    ensures forall id :: id in order && id in tracks && Matches(f, tracks[id]) ==> tracks[id] in r
    ensures NoDup(order) ==> |r| == |ListedMatches(tracks, order, f)|
  {
    if order == [] then
      assert ListedMatches(tracks, order, f) == {};
      []
    else
      var rest := Matching(tracks, order[1..], f);
      assert forall id :: id in order && id != order[0] ==> id in order[1..];
      assert forall id :: id in order[1..] ==> id in order;
      NoDupTail(order);
      if order[0] in tracks && Matches(f, tracks[order[0]]) then
        assert ListedMatches(tracks, order, f) == ListedMatches(tracks, order[1..], f) + {order[0]};
        [tracks[order[0]]] + rest
      else
        assert ListedMatches(tracks, order, f) == ListedMatches(tracks, order[1..], f);
        rest
  }

  /** The tail of a list without repeats has no repeats and lacks the head. */
  lemma NoDupTail(order: seq<ObjectId>)
    requires order != []
    ensures NoDup(order) ==> NoDup(order[1..]) && order[0] !in order[1..]
  {
    if NoDup(order) {
      forall i, j | 0 <= i < j < |order[1..]|
        ensures order[1..][i] != order[1..][j]
      {
        assert order[1..][i] == order[i + 1] && order[1..][j] == order[j + 1];
      }
      forall k | 0 <= k < |order[1..]|
        ensures order[1..][k] != order[0]
      {
        assert order[1..][k] == order[k + 1];
      }
    }
  }

  /**
    `order` is a natural order of the collection: it lists every stored id,
    and each of them once.
   */
  predicate NaturalOrder(tracks: map<ObjectId, Track>, order: seq<ObjectId>)
  {
    && NoDup(order)
    && (forall id :: id in order ==> id in tracks)
    && (forall id :: id in tracks ==> id in order)
  }

  /** The ids of the stored tracks that match `f`: what `Track.count(filter)` counts. */
  function StoredMatches(tracks: map<ObjectId, Track>, f: TrackFilter): set<ObjectId>
  {
    set id | id in tracks && Matches(f, tracks[id])
  }

  /**
    `Track.find(filter)`, read in the collection's natural order `order`:
    exactly the stored tracks that match, one result per matching document.
   */
  function Find(tracks: map<ObjectId, Track>, order: seq<ObjectId>, f: TrackFilter): (r: seq<Track>)
    requires NaturalOrder(tracks, order)
    ensures forall t :: t in r ==> Matches(f, t) && t in tracks.Values
    ensures forall id :: id in tracks && Matches(f, tracks[id]) ==> tracks[id] in r
    ensures |r| == |StoredMatches(tracks, f)|
  {
    assert ListedMatches(tracks, order, f) == StoredMatches(tracks, f);
    Matching(tracks, order, f)
  }

  /** Most plays first. */
  predicate SortedByPlays(s: seq<Track>)
  {
    forall i, j :: 0 <= i < j < |s| ==> s[i].numPlays >= s[j].numPlays
  }

  /** Puts `x` in front of a list sorted by plays whose head has no more plays than `x`. */
  lemma ConsKeepsSorted(x: Track, s: seq<Track>)
    requires SortedByPlays(s) && (s != [] ==> x.numPlays >= s[0].numPlays)
    ensures SortedByPlays([x] + s)
  {
    forall i, j | 0 <= i < j < |s| + 1
      ensures ([x] + s)[i].numPlays >= ([x] + s)[j].numPlays
    {
      if i > 0 {
        assert ([x] + s)[i] == s[i - 1] && ([x] + s)[j] == s[j - 1];
      } else if j > 1 {
        assert ([x] + s)[j] == s[j - 1];
      }
    }
  }

  /** Inserts `t` before the first entry with no more plays than it. */
  function InsertByPlays(t: Track, s: seq<Track>): (r: seq<Track>)
    requires SortedByPlays(s)
    ensures SortedByPlays(r)
    ensures multiset(r) == multiset(s) + multiset{t}
    ensures r[0] == t || (s != [] && r[0] == s[0])
  {
    if s == [] || s[0].numPlays <= t.numPlays then
      ConsKeepsSorted(t, s);
      [t] + s
    else
      assert s == [s[0]] + s[1..];
      var rest := InsertByPlays(t, s[1..]);
      ConsKeepsSorted(s[0], rest);
      [s[0]] + rest
  }

  /**
    `.sort({numPlays: "desc"})`: the same tracks, most plays first. Tracks
    with equal plays keep their natural order.
   */
  function SortByPlays(s: seq<Track>): (r: seq<Track>)
    ensures SortedByPlays(r)
    ensures multiset(r) == multiset(s)
    ensures |r| == |s|
  {
    if s == [] then []
    else
      assert s == [s[0]] + s[1..];
      InsertByPlays(s[0], SortByPlays(s[1..]))
  }

  /** A contiguous part of a list sorted by plays is sorted by plays. */
  lemma SliceKeepsSorted(s: seq<Track>, lo: int, hi: int)
    requires SortedByPlays(s) && 0 <= lo <= hi <= |s|
    ensures SortedByPlays(s[lo..hi])
  {
    forall i, j | 0 <= i < j < hi - lo
      ensures s[lo..hi][i].numPlays >= s[lo..hi][j].numPlays
    {
      assert s[lo..hi][i] == s[lo + i] && s[lo..hi][j] == s[lo + j];
    }
  }

  /** A contiguous part of the sorted list is sorted and holds only entries of the unsorted one. */
  lemma SortedSlice(s: seq<Track>, lo: int, hi: int)
    requires 0 <= lo <= hi <= |s|
    ensures SortedByPlays(SortByPlays(s)[lo..hi])
    ensures forall t :: t in SortByPlays(s)[lo..hi] ==> t in s
  {
    var sorted := SortByPlays(s);
    SliceKeepsSorted(sorted, lo, hi);
    forall t | t in sorted[lo..hi]
      ensures t in s
    {
      assert t in multiset(sorted);
    }
  }

  /** A page of the sorted list is a contiguous part of it. */
  lemma PageOfSorted(s: seq<Track>, page: int, perPage: int)
    requires perPage >= 1
    ensures SortedByPlays(PageSlice(SortByPlays(s), page, perPage))
    ensures forall t :: t in PageSlice(SortByPlays(s), page, perPage) ==> t in s
  {
    var sorted := SortByPlays(s);
    var r := PageSlice(sorted, page, perPage);
    var start := perPage * (page - 1);
    if r != [] {
      assert 0 <= start && start + |r| <= |sorted|;
      assert r == sorted[start..start + |r|];
      SortedSlice(s, start, start + |r|);
    }
  }

  // ---------------------------------------------------------------------
  // Listing tracks
  // ---------------------------------------------------------------------

  const UNABLE_TO_FIND_TRACK := "Unable to find track"

  /** What the listing answers: an error, or a page with the paging figures. */
  datatype TracksReply =
    | TracksFailure(response: Response)
    | TracksPage(tracks: seq<Track>, total: nat, page: int, pageCount: nat)

  /**
    One page of the tracks matching `f`, most played first: 404 when the page
    is empty; otherwise the page, the number of matching tracks
    (`Track.count(filter)`), the page and the page count.
   */
  function MatchingPage(tracks: map<ObjectId, Track>, order: seq<ObjectId>, f: TrackFilter, page: int, perPage: int)
    : (r: TracksReply)
    requires NaturalOrder(tracks, order) && page >= 1 && perPage >= 1
    ensures var total := |StoredMatches(tracks, f)|;
      && (r.TracksFailure? <==> total <= perPage * (page - 1))
      && (r.TracksFailure? ==> r.response == Reply(404, UNABLE_TO_FIND_TRACK))
      && (r.TracksPage? ==>
            && 0 < |r.tracks| <= perPage
            && SortedByPlays(r.tracks)
            && (forall t :: t in r.tracks ==> Matches(f, t) && t in tracks.Values)
            && r.tracks == PageSlice(SortByPlays(Find(tracks, order, f)), page, perPage)
            && r.total == total && r.page == page && r.pageCount == PageCount(total, perPage))
  {
    var matching := Find(tracks, order, f);
    var sorted := SortByPlays(matching);
    var results := PageSlice(sorted, page, perPage);
    assert perPage * (page - 1) >= 0;
    assert |sorted| == |matching| == |StoredMatches(tracks, f)|;
    if results == [] then TracksFailure(Reply(404, UNABLE_TO_FIND_TRACK))
    else
      PageOfSorted(matching, page, perPage);
      TracksPage(results, |matching|, page, PageCount(|matching|, perPage))
  }

  /**
    `getTracks`: page and page size default to 1 and 5 and are checked first
    (400). Then the page of the tracks matching the query strings' filter.
   */
  function GetTracks(tracks: map<ObjectId, Track>, order: seq<ObjectId>, page: Option<int>, perPage: Option<int>,
                     title: Option<string>, trackURL: Option<string>): (r: TracksReply)
    requires NaturalOrder(tracks, order)
    ensures var p, pp := WithDefault(page, DEFAULT_PAGE), WithDefault(perPage, DEFAULT_PER_PAGE);
      ValidatePage(p, pp).Some? ==> r == TracksFailure(Reply(400, ValidatePage(p, pp).value))
    ensures var p, pp := WithDefault(page, DEFAULT_PAGE), WithDefault(perPage, DEFAULT_PER_PAGE);
      ValidatePage(p, pp).None? ==> r == MatchingPage(tracks, order, SelectFilter(title, trackURL), p, pp)
    ensures page.None? && perPage.None? && title.None? && trackURL.None? ==>
      (r.TracksPage? <==> tracks != map[]) && (r.TracksPage? ==> r.total == |tracks.Keys| && |r.tracks| == Min(5, |tracks.Keys|))
  {
    var p, pp := WithDefault(page, DEFAULT_PAGE), WithDefault(perPage, DEFAULT_PER_PAGE);
    match ValidatePage(p, pp)
    case Some(message) => TracksFailure(Reply(400, message))
    case None =>
      assert StoredMatches(tracks, MatchAll) == tracks.Keys;
      MatchingPage(tracks, order, SelectFilter(title, trackURL), p, pp)
  }

  // ---------------------------------------------------------------------
  // The city chart
  // ---------------------------------------------------------------------

  const CHART_LENGTH := 10
  const INVALID_CITY_NAME := "Invalid city name"
  const NO_TRACKS_FOR_CITY := "No tracks found for this city"

  datatype ChartReply = ChartMessage(response: Response) | Chart(tracks: seq<Track>)

  /**
    The `n` most played entries of `s`, most first: a prefix of the sorted
    list, so no entry left out has more plays than one kept.
   */
  function TopByPlays(s: seq<Track>, n: nat): (r: seq<Track>)
    ensures |r| == Min(n, |s|)
    ensures SortedByPlays(r)
    ensures forall t :: t in r ==> t in s
    ensures r == SortByPlays(s)[..|r|]
    ensures forall i, j :: 0 <= i < |r| <= j < |s| ==> r[i].numPlays >= SortByPlays(s)[j].numPlays
  {
    var sorted := SortByPlays(s);
    SortedSlice(s, 0, Min(n, |s|));
    assert sorted[..Min(n, |s|)] == sorted[0..Min(n, |s|)];
    sorted[..Min(n, |s|)]
  }

  /**
    `getChartOfCity`: a city the track schema rejects gives 400. Otherwise
    the ten most played tracks of the city, most first; none gives 200 with
    a message.
   */
  function GetChartOfCity(tracks: map<ObjectId, Track>, order: seq<ObjectId>, city: string): (r: ChartReply)
    requires NaturalOrder(tracks, order)
    ensures !TrackCityValid(city) ==> r == ChartMessage(Reply(400, INVALID_CITY_NAME))
    ensures TrackCityValid(city) && StoredMatches(tracks, ByCity(city)) == {} ==> r == ChartMessage(Reply(200, NO_TRACKS_FOR_CITY))
    ensures TrackCityValid(city) && StoredMatches(tracks, ByCity(city)) != {} ==> r.Chart?
    ensures r.Chart? ==>
      && TrackCityValid(city)
      && 0 < |r.tracks| <= CHART_LENGTH
      && |r.tracks| == Min(CHART_LENGTH, |StoredMatches(tracks, ByCity(city))|)
      && r.tracks == TopByPlays(Find(tracks, order, ByCity(city)), CHART_LENGTH)
      && (forall t :: t in r.tracks ==> t.city == city && t in tracks.Values)
  {
    if !TrackCityValid(city) then ChartMessage(Reply(400, INVALID_CITY_NAME))
    else
      var matching := Find(tracks, order, ByCity(city));
      CityChartFacts(tracks, order, city);
      if matching == [] then ChartMessage(Reply(200, NO_TRACKS_FOR_CITY))
      else Chart(TopByPlays(matching, CHART_LENGTH))
  }

  /** The chart of a city holds only stored tracks of that city, as many as there are up to the chart length. */
  lemma CityChartFacts(tracks: map<ObjectId, Track>, order: seq<ObjectId>, city: string)
    requires NaturalOrder(tracks, order)
    ensures Find(tracks, order, ByCity(city)) == [] <==> StoredMatches(tracks, ByCity(city)) == {}
    ensures var top := TopByPlays(Find(tracks, order, ByCity(city)), CHART_LENGTH);
      && |top| == Min(CHART_LENGTH, |StoredMatches(tracks, ByCity(city))|)
      && forall t :: t in top ==> t.city == city && t in tracks.Values
  {
    var matching := Find(tracks, order, ByCity(city));
    var top := TopByPlays(matching, CHART_LENGTH);
    forall t | t in top
      ensures t.city == city && t in tracks.Values
    {
      assert t in matching;
    }
  }

  // ---------------------------------------------------------------------
  // The upload form
  // ---------------------------------------------------------------------

  /**
    The fields of an upload request. A text field is `None` when absent or
    empty; `uploaderId` keeps whether it is a well-formed id; `track` is the
    uploaded file, if any.
   */
  datatype PostTrackForm = PostTrackForm(
    title: Option<string>,
    genre: Option<string>,
    city: Option<string>,
    trackURL: Option<string>,
    dateUploaded: Option<string>,
    uploaderId: Option<RawId>,
    description: Option<string>,
    track: Option<seq<byte>>)

  const NO_TITLE := "No track title in request body."
  const NO_GENRE := "No genre in request body."
  const NO_CITY := "No city in request body."
  const NO_TRACK_URL := "No trackURL in request body."
  const INVALID_TRACK_URL := "Invalid trackURL in request body."
  const NO_DATE := "No dateUploaded in request body."
  const INVALID_DATE := "Invalid dateUploaded in request body."
  const DATE_TOO_EARLY := "Date invalid, it is more then thirty minutes before upload date."
  const NO_UPLOADER_ID := "No uploaderId in request body."
  const NO_DESCRIPTION := "No description in request body."
  const NO_TRACK := "No track in request body."

  /** One minute, in milliseconds. */
  const MINUTE := 60 * 1000

  /**
    `moment(date).isBefore(now, "minute")`: the end of the minute holding
    `date` is before `now`, that is, `date` falls in an earlier minute.
   */
  predicate BeforeMinuteOf(date: int, now: int)
  {
    date / MINUTE < now / MINUTE
  }

  /**
    Every check of the upload form passes. `isURL` stands for
    `validator.isURL` without a top-level domain requirement and `parseDate`
    for the ISO 8601 parse of moment, giving milliseconds.
   */
  predicate FormAccepted(form: PostTrackForm, isURL: string -> bool, parseDate: string -> Option<int>, now: int)
  {
    && Present(form.title) && Present(form.genre) && Present(form.city)
    && Present(form.trackURL) && isURL(form.trackURL.value)
    && Present(form.dateUploaded) && parseDate(form.dateUploaded.value).Some?
    && !BeforeMinuteOf(parseDate(form.dateUploaded.value).value, now)
    && form.uploaderId.Some? && Present(form.description) && form.track.Some?
  }

  /**
    `validatePostTrackForm`: the checks run on title, genre, city, trackURL,
    dateUploaded, uploaderId, description and the file, in that order, and the
    message of the first failing one is returned.
   */
  function ValidatePostTrackForm(form: PostTrackForm, isURL: string -> bool, parseDate: string -> Option<int>, now: int)
    : (r: Option<string>)
    ensures r.None? <==> FormAccepted(form, isURL, parseDate, now)
    ensures !Present(form.title) ==> r == Some(NO_TITLE)
    ensures r == Some(DATE_TOO_EARLY) <==>
      && Present(form.title) && Present(form.genre) && Present(form.city)
      && Present(form.trackURL) && isURL(form.trackURL.value)
      && Present(form.dateUploaded) && parseDate(form.dateUploaded.value).Some?
      && BeforeMinuteOf(parseDate(form.dateUploaded.value).value, now)
    ensures r == Some(NO_TRACK) <==> form.track.None? && FormAccepted(form.(track := Some([])), isURL, parseDate, now)
  {
    if !Present(form.title) then Some(NO_TITLE)
    else if !Present(form.genre) then Some(NO_GENRE)
    else if !Present(form.city) then Some(NO_CITY)
    else if !Present(form.trackURL) then Some(NO_TRACK_URL)
    else if !isURL(form.trackURL.value) then Some(INVALID_TRACK_URL)
    else if !Present(form.dateUploaded) then Some(NO_DATE)
    else if parseDate(form.dateUploaded.value).None? then Some(INVALID_DATE)
    else if BeforeMinuteOf(parseDate(form.dateUploaded.value).value, now) then Some(DATE_TOO_EARLY)
    else if form.uploaderId.None? then Some(NO_UPLOADER_ID)
    else if !Present(form.description) then Some(NO_DESCRIPTION)
    else if form.track.None? then Some(NO_TRACK)
    else None
  }

  /**
    The form's date check and the schema's window together accept exactly
    the dates from the start of the current minute to thirty minutes ahead.
   */
  lemma AcceptedUploadDates(date: int, now: int)
    ensures !BeforeMinuteOf(date, now) && DateUploadedValid(date, now) <==>
      (now / MINUTE) * MINUTE <= date <= now + THIRTY_MINUTES
  {
    if (now / MINUTE) * MINUTE <= date {
      assert date / MINUTE >= now / MINUTE by {
        DivMonotone((now / MINUTE) * MINUTE, date);
      }
    }
    if !BeforeMinuteOf(date, now) {
      assert date >= (date / MINUTE) * MINUTE;
      assert (date / MINUTE) * MINUTE >= (now / MINUTE) * MINUTE;
    }
  }

  lemma DivMonotone(a: int, b: int)
    requires a <= b
    ensures a / MINUTE <= b / MINUTE
  {
  }

  /**
    A date one minute old, well inside the schema's thirty-minute window, is
    refused by the form with the "more then thirty minutes" message.
   */
  lemma OneMinuteOldDateRefused()
    ensures DateUploadedValid(9 * MINUTE, 10 * MINUTE)
    ensures BeforeMinuteOf(9 * MINUTE, 10 * MINUTE)
  {
  }

  // ---------------------------------------------------------------------
  // Uploading a track
  // ---------------------------------------------------------------------

  const UPLOAD_FAILED := "Error uploading file"
  const NO_UPLOADER_ACCOUNT := "No User account associated with uploaderID"
  const UPLOADED := "File uploaded successfully"

  /**
    `new Track({...})` from an accepted form with a well-formed uploader id:
    the track references the upload stream `blobId`.
   */
  function FormTrack(form: PostTrackForm, parseDate: string -> Option<int>, blobId: ObjectId): (t: Track)
    requires form.title.Some? && form.genre.Some? && form.city.Some? && form.trackURL.Some?
    requires form.dateUploaded.Some? && parseDate(form.dateUploaded.value).Some?
    requires form.uploaderId.Some? && form.uploaderId.value.Valid? && form.description.Some?
    ensures t.trackBinaryId == blobId && t.uploaderId == form.uploaderId.value.id
    ensures t.numPlays == 0 && t.numLikes == 0 && t.numComments == 0 && t.comments == []
  {
    NewTrack(form.title.value, form.genre.value, form.city.value, form.trackURL.value,
             parseDate(form.dateUploaded.value).value, form.uploaderId.value.id, form.description.value, blobId)
  }

  /** `{$push: {uploadedTracks: {trackID}}, $inc: {numberOfTracksUploaded: 1}}` on the uploader. */
  function PushUploadedTrack(u: User, trackId: ObjectId): (r: User)
    ensures r.uploadedTracks == u.uploadedTracks + [trackId]
    ensures r.numberOfTracksUploaded - u.numberOfTracksUploaded == |r.uploadedTracks| - |u.uploadedTracks| == 1
    ensures r.(uploadedTracks := u.uploadedTracks, numberOfTracksUploaded := u.numberOfTracksUploaded) == u
  {
    u.(uploadedTracks := u.uploadedTracks + [trackId], numberOfTracksUploaded := u.numberOfTracksUploaded + 1)
  }

  /**
    `postTrack`. After the form check, the upload stream `blobId` is
    opened, the track document referencing it is saved under the fresh id
    `trackId`, and the handler answers 201. Only then are the bytes piped
    (`pipeOk`); when they are stored, the uploader gains the track
    (`uploaderUpdateOk`); when that update fails, the track is removed
    (`removeOk`) and its hook deletes the audio file (`blobDeleteOk`). A
    failed pipe leaves the saved track without its audio file.
   */
  method PostTrack(db: Database, form: PostTrackForm, isURL: string -> bool, parseDate: string -> Option<int>, now: int,
                   trackId: ObjectId, blobId: ObjectId, saveOk: bool, pipeOk: bool, uploaderUpdateOk: bool,
                   removeOk: bool, blobDeleteOk: bool) returns (resp: Response)
    requires db.Valid() && trackId !in db.tracks && blobId !in db.trackBinaryFiles
    modifies db
    ensures db.Valid()
    ensures db.userProfileImageFiles == old(db.userProfileImageFiles)
    ensures !FormAccepted(form, isURL, parseDate, now) ==>
      && resp == Reply(400, ValidatePostTrackForm(form, isURL, parseDate, now).value)
      && db.users == old(db.users) && db.tracks == old(db.tracks) && db.trackBinaryFiles == old(db.trackBinaryFiles)
    ensures FormAccepted(form, isURL, parseDate, now) && form.uploaderId.value.Malformed? ==>
      && resp == Reply(500, UPLOAD_FAILED)
      && db.users == old(db.users) && db.tracks == old(db.tracks) && db.trackBinaryFiles == old(db.trackBinaryFiles)
    ensures FormAccepted(form, isURL, parseDate, now) && form.uploaderId.value.Valid? ==>
      var doc := FormTrack(form, parseDate, blobId);
      var u := doc.uploaderId;
      var failure := SaveTrack(old(db.users), old(db.tracks), trackId, doc, now, saveOk);
      && (failure.Some? ==>
            && resp == (if failure == Some(NoUploader) then Reply(400, NO_UPLOADER_ACCOUNT) else Reply(500, UPLOAD_FAILED))
            && db.users == old(db.users) && db.tracks == old(db.tracks) && db.trackBinaryFiles == old(db.trackBinaryFiles))
      && (failure.None? ==> resp == Reply(201, UPLOADED) && u in old(db.users))
      && (failure.None? && !pipeOk ==>
            && db.users == old(db.users) && db.tracks == old(db.tracks)[trackId := doc]
            && db.trackBinaryFiles == old(db.trackBinaryFiles))
      && (failure.None? && pipeOk && uploaderUpdateOk ==>
            && db.users == old(db.users)[u := PushUploadedTrack(old(db.users)[u], trackId)]
            && db.tracks == old(db.tracks)[trackId := doc]
            && db.trackBinaryFiles == old(db.trackBinaryFiles)[blobId := form.track.value])
      && (failure.None? && pipeOk && !uploaderUpdateOk ==>
            && db.users == old(db.users)
            && db.tracks == (if removeOk then old(db.tracks) else old(db.tracks)[trackId := doc])
            && db.trackBinaryFiles ==
                 (if removeOk && blobDeleteOk then old(db.trackBinaryFiles) else old(db.trackBinaryFiles)[blobId := form.track.value]))
  {
    var rejection := ValidatePostTrackForm(form, isURL, parseDate, now);
    if rejection.Some? {
      return Reply(400, rejection.value);
    }
    if form.uploaderId.value.Malformed? {
      // the id cannot be cast, so the save fails validation
      return Reply(500, UPLOAD_FAILED);
    }
    var doc := FormTrack(form, parseDate, blobId);
    var failure := db.InsertTrack(trackId, doc, now, saveOk);
    if failure.Some? {
      if failure == Some(NoUploader) {
        return Reply(400, NO_UPLOADER_ACCOUNT);
      }
      return Reply(500, UPLOAD_FAILED);
    }
    resp := Reply(201, UPLOADED);
    if !pipeOk {
      return;
    }
    db.trackBinaryFiles := db.trackBinaryFiles[blobId := form.track.value];
    var u := doc.uploaderId;
    if uploaderUpdateOk {
      ReplaceUserKeepsConsistent(db.users, u, PushUploadedTrack(db.users[u], trackId));
      db.users := db.users[u := PushUploadedTrack(db.users[u], trackId)];
    } else {
      db.RemoveTrack(trackId, removeOk, blobDeleteOk);
      assert old(db.tracks)[trackId := doc] - {trackId} == old(db.tracks);
      assert old(db.trackBinaryFiles)[blobId := form.track.value] - {blobId} == old(db.trackBinaryFiles);
    }
  }

  // ---------------------------------------------------------------------
  // Finding a track by its trackURL
  // ---------------------------------------------------------------------

  predicate TrackURLExists(tracks: map<ObjectId, Track>, url: string)
  {
    exists id :: id in tracks && tracks[id].trackURL == url
  }

  /** The track stored under `url`; the unique index makes it the only one. */
  ghost function TrackWithURL(tracks: map<ObjectId, Track>, url: string): (id: ObjectId)
    requires TrackURLExists(tracks, url)
    ensures id in tracks && tracks[id].trackURL == url
  {
    var id :| id in tracks && tracks[id].trackURL == url; id
  }

  lemma TrackWithURLIsUnique(tracks: map<ObjectId, Track>, url: string, id: ObjectId)
    requires UniqueTrackURLs(tracks) && id in tracks && tracks[id].trackURL == url
    ensures TrackURLExists(tracks, url) && TrackWithURL(tracks, url) == id
  {
  }

  /** `Track.findOne({trackURL})`: the id of the track stored under `url`, if any. */
  method FindTrackByURL(db: Database, url: string) returns (found: Option<ObjectId>)
    requires db.Valid()
    ensures found.None? <==> !TrackURLExists(db.tracks, url)
    ensures found.Some? ==> found.value == TrackWithURL(db.tracks, url)
  {
    if !TrackURLExists(db.tracks, url) {
      return None;
    }
    var id :| id in db.tracks && db.tracks[id].trackURL == url;
    TrackWithURLIsUnique(db.tracks, url, id);
    return Some(id);
  }

  // ---------------------------------------------------------------------
  // Comments
  // ---------------------------------------------------------------------

  const INVALID_USER_ID_FORMAT := "Invalid userID format"
  const NO_COMMENTER := "No user associated with the commenter"
  const COMMENT_ADDED := "Comment successfully added"

  /** `{$push: {comments: c}}`: one more comment, every other field as it was, `numComments` included. */
  function AppendComment(t: Track, c: Comment): (r: Track)
    ensures r.comments == t.comments + [c]
    ensures r.numComments == t.numComments
    ensures r.(comments := t.comments) == t
  {
    t.(comments := t.comments + [c])
  }

  /** A track whose counter matched its comments no longer does after a comment is added. */
  lemma AppendCommentLeavesCounterBehind(t: Track, c: Comment)
    requires t.numComments == |t.comments|
    ensures AppendComment(t, c).numComments == |AppendComment(t, c).comments| - 1
  {
  }

  /**
    `addCommentToTrackByTrackURL`: a malformed commenter id, an unknown
    trackURL, an unknown commenter and a failed write answer 400 and change
    nothing. Otherwise the track gains exactly the one comment.
   */
  method AddCommentToTrackByTrackURL(db: Database, commenter: RawId, date: string, body: string, trackURL: string,
                                     writeOk: bool) returns (resp: Response)
    requires db.Valid()
    modifies db
    ensures db.Valid()
    ensures db.users == old(db.users)
    ensures db.trackBinaryFiles == old(db.trackBinaryFiles) && db.userProfileImageFiles == old(db.userProfileImageFiles)
    ensures commenter.Malformed? ==> resp == Reply(400, INVALID_USER_ID_FORMAT) && db.tracks == old(db.tracks)
    ensures commenter.Valid? && !TrackURLExists(old(db.tracks), trackURL) ==> resp == Reply(400, BAD_REQUEST) && db.tracks == old(db.tracks)
    ensures commenter.Valid? && TrackURLExists(old(db.tracks), trackURL) && commenter.id !in old(db.users) ==>
      resp == Reply(400, NO_COMMENTER) && db.tracks == old(db.tracks)
    ensures commenter.Valid? && TrackURLExists(old(db.tracks), trackURL) && commenter.id in old(db.users) ==>
      var id := TrackWithURL(old(db.tracks), trackURL);
      && (!writeOk ==> resp == Reply(400, BAD_REQUEST) && db.tracks == old(db.tracks))
      && (writeOk ==>
            && resp == Reply(200, COMMENT_ADDED)
            && db.tracks == old(db.tracks)[id := AppendComment(old(db.tracks)[id], Comment(commenter.id, date, body))])
  {
    if commenter.Malformed? {
      return Reply(400, INVALID_USER_ID_FORMAT);
    }
    var found := FindTrackByURL(db, trackURL);
    if found.None? {
      return Reply(400, BAD_REQUEST);
    }
    if commenter.id !in db.users {
      return Reply(400, NO_COMMENTER);
    }
    if !writeOk {
      return Reply(400, BAD_REQUEST);
    }
    var id := found.value;
    var updated := AppendComment(db.tracks[id], Comment(commenter.id, date, body));
    ReplaceTrackKeepsUnique(db.tracks, id, updated);
    db.tracks := db.tracks[id := updated];
    resp := Reply(200, COMMENT_ADDED);
  }

  // ---------------------------------------------------------------------
  // Title and description edits
  // ---------------------------------------------------------------------

  const TITLE_TOO_LONG := "New track title exceeds maximum length of track title (100 characters)"
  const NO_TRACK_FOR_URL := "No track associated with that trackURL"
  const TITLE_UPDATED := "Old track title updated"
  const DESCRIPTION_TOO_LONG := "New description exceeds maximum length of description (4000 characters)"
  const NO_TRACK_FOR_REQUESTED_URL := "No track associated with requested trackURL"
  const DESCRIPTION_UNCHANGED := "Track description not updated. Old track description is the same as new requested track description"
  const DESCRIPTION_UPDATED := "Old track description updated"

  /**
    `updateTrackTitleByTrackURL`: the update validators run first, so a title
    over 100 characters is 400 and an empty one (required) 500, whether or
    not the trackURL is known. A valid title for an unknown trackURL is 400;
    otherwise the title is replaced and nothing else changes.
   */
  method UpdateTrackTitleByTrackURL(db: Database, trackURL: string, newTitle: string) returns (resp: Response)
    requires db.Valid()
    modifies db
    ensures db.Valid()
    ensures db.users == old(db.users)
    ensures db.trackBinaryFiles == old(db.trackBinaryFiles) && db.userProfileImageFiles == old(db.userProfileImageFiles)
    ensures |newTitle| > TITLE_MAX_LENGTH ==> resp == Reply(400, TITLE_TOO_LONG) && db.tracks == old(db.tracks)
    ensures newTitle == "" ==> resp == Reply(500, INTERNAL_SERVER_ERROR) && db.tracks == old(db.tracks)
    ensures 0 < |newTitle| <= TITLE_MAX_LENGTH && !TrackURLExists(old(db.tracks), trackURL) ==>
      resp == Reply(400, NO_TRACK_FOR_URL) && db.tracks == old(db.tracks)
    ensures 0 < |newTitle| <= TITLE_MAX_LENGTH && TrackURLExists(old(db.tracks), trackURL) ==>
      var id := TrackWithURL(old(db.tracks), trackURL);
      resp == Reply(200, TITLE_UPDATED) && db.tracks == old(db.tracks)[id := old(db.tracks)[id].(title := newTitle)]
  {
    if |newTitle| > TITLE_MAX_LENGTH {
      return Reply(400, TITLE_TOO_LONG);
    }
    if newTitle == "" {
      return Reply(500, INTERNAL_SERVER_ERROR);
    }
    var found := FindTrackByURL(db, trackURL);
    if found.None? {
      return Reply(400, NO_TRACK_FOR_URL);
    }
    var id := found.value;
    ReplaceTrackKeepsUnique(db.tracks, id, db.tracks[id].(title := newTitle));
    db.tracks := db.tracks[id := db.tracks[id].(title := newTitle)];
    resp := Reply(200, TITLE_UPDATED);
  }

  /**
    `updateTrackDescriptionByTrackURL`: a description over 4000 characters
    is 400 and an unknown trackURL 404, changing nothing. Otherwise the
    description is replaced; the answer is 400 when it equals the old one
    (the stored track is then as it was) and 200 otherwise.
   */
  method UpdateTrackDescriptionByTrackURL(db: Database, trackURL: string, newDescription: string) returns (resp: Response)
    requires db.Valid()
    modifies db
    ensures db.Valid()
    ensures db.users == old(db.users)
    ensures db.trackBinaryFiles == old(db.trackBinaryFiles) && db.userProfileImageFiles == old(db.userProfileImageFiles)
    ensures |newDescription| > DESCRIPTION_MAX_LENGTH ==> resp == Reply(400, DESCRIPTION_TOO_LONG) && db.tracks == old(db.tracks)
    ensures |newDescription| <= DESCRIPTION_MAX_LENGTH && !TrackURLExists(old(db.tracks), trackURL) ==>
      resp == Reply(404, NO_TRACK_FOR_REQUESTED_URL) && db.tracks == old(db.tracks)
    ensures |newDescription| <= DESCRIPTION_MAX_LENGTH && TrackURLExists(old(db.tracks), trackURL) ==>
      var id := TrackWithURL(old(db.tracks), trackURL);
      && db.tracks == old(db.tracks)[id := old(db.tracks)[id].(description := newDescription)]
      && (old(db.tracks)[id].description == newDescription ==> resp == Reply(400, DESCRIPTION_UNCHANGED) && db.tracks == old(db.tracks))
      && (old(db.tracks)[id].description != newDescription ==> resp == Reply(200, DESCRIPTION_UPDATED))
  {
    if |newDescription| > DESCRIPTION_MAX_LENGTH {
      return Reply(400, DESCRIPTION_TOO_LONG);
    }
    var found := FindTrackByURL(db, trackURL);
    if found.None? {
      return Reply(404, NO_TRACK_FOR_REQUESTED_URL);
    }
    var id := found.value;
    var previous := db.tracks[id];
    ReplaceTrackKeepsUnique(db.tracks, id, previous.(description := newDescription));
    db.tracks := db.tracks[id := previous.(description := newDescription)];
    if previous.description == newDescription {
      assert db.tracks == old(db.tracks);
      return Reply(400, DESCRIPTION_UNCHANGED);
    }
    resp := Reply(200, DESCRIPTION_UPDATED);
  }

  // ---------------------------------------------------------------------
  // The delete route
  // ---------------------------------------------------------------------

  const NO_TRACK_WITH_URL := "No track with this trackURL found on the system"
  const DELETE_UNAUTHORIZED := "JWT token provided does not map to a user who has permission to delete this track."
  const DELETED := "Track deleted successfully"

  /**
    `deleteTrackByTrackURL`: 404 when no track has the trackURL, 403 when the
    requestor is not the uploader of the track found, 200 otherwise. It only
    reads: the store is never changed, whatever the answer.
   */
  function DeleteTrackByTrackURL(tracks: map<ObjectId, Track>, trackURL: string, requestor: ObjectId): (r: Response)
    requires UniqueTrackURLs(tracks)
    ensures r.status in {200, 403, 404}
    ensures r.status == 404 <==> !TrackURLExists(tracks, trackURL)
    ensures r.status == 200 <==> TrackURLExists(tracks, trackURL) && tracks[TrackWithURL(tracks, trackURL)].uploaderId == requestor
  {
    if !TrackURLExists(tracks, trackURL) then Reply(404, NO_TRACK_WITH_URL)
    else
      UploaderOfURL(tracks, trackURL, requestor);
      if exists id :: id in tracks && tracks[id].trackURL == trackURL && tracks[id].uploaderId == requestor
      then Reply(200, DELETED)
      else Reply(403, DELETE_UNAUTHORIZED)
  }

  /** With unique trackURLs, some track under `url` has uploader `u` iff the track found under it has. */
  lemma UploaderOfURL(tracks: map<ObjectId, Track>, url: string, u: ObjectId)
    requires UniqueTrackURLs(tracks) && TrackURLExists(tracks, url)
    ensures (exists id :: id in tracks && tracks[id].trackURL == url && tracks[id].uploaderId == u)
        <==> tracks[TrackWithURL(tracks, url)].uploaderId == u
  {
    var found := TrackWithURL(tracks, url);
    forall id | id in tracks && tracks[id].trackURL == url
      ensures id == found
    {
      TrackWithURLIsUnique(tracks, url, id);
    }
  }
}
