# A verified model of the music-sharing API core

The service stores users and tracks in MongoDB through mongoose and keeps
audio files and profile pictures in two GridFS buckets. Users follow each
other and like tracks, and each user document keeps counters beside its lists.
Tracks are uploaded through a form and listed, charted, commented on and
edited by trackURL. This project models:

- the two schemas and their hooks (`models/userModel.js`, `models/trackModel.js`):
  the validators, the password pre-save hook, the uploader pre-save check, the
  unique indexes, and the post-remove cascades;
- the handlers of `controllers/userController.js` and
  `controllers/trackController.js`: every guard, every write, and every
  compensating write.

Layout:

| file | module | what |
|---|---|---|
| `common.dfy` | `Common` | `Option`, `Result`, ids (`ObjectId`, `RawId`), `Response` |
| `arrays.dfy` | `MongoArrays` | `$push`/`$pull` on embedded arrays |
| `user_model.dfy` | `UserModel` | the user document and its save pipeline |
| `track_model.dfy` | `TrackModel` | the track document and its save pipeline |
| `store.dfy` | `Store` | the class `Database`: collections, buckets, saves, removals with hooks |
| `paging.dfy` | `Paging` | page-query validation, page slicing, page count |
| `relationships.dfy` | `Relationships` | follow/unfollow and like/unlike guards, writes and compensations |
| `user_controller.dfy` | `UserController` | the user handlers |
| `track_controller.dfy` | `TrackController` | the track handlers |

The database is one `Store.Database` object. Its fields are maps from ids to
documents (`users`, `tracks`) and from ids to file contents
(`trackBinaryFiles`, `userProfileImageFiles`). A handler is a method that
modifies it. Its invariant `Valid()` holds before and after every handler. It
says that:

- the unique indexes hold (email and userURL of users, trackURL of tracks);
- every user is in sync with its own lists: no duplicate followee or liked
  track, `numberOfFollowees` equals the followee count, and
  `numberOfTracksUploaded` equals the uploaded count.

Whatever the outside world decides is a parameter of the handler:

- whether each database write succeeds (`writeOk`, `followeeWriteOk`,
  `rollbackOk`, sets of failing removals, …);
- the id the database hands out for a new document or file;
- the current time `now`, in milliseconds;
- the validator library's `isEmail`/`isURL`;
- moment's ISO 8601 parse;
- bcrypt's hash and whether it fails.

A handler's `Response` is the first status and message it sends.

## Model

| member | source | states |
|---|---|---|
| MongoArrays.Pull | controllers/userController.js:545-549 | `$pull` removes every copy of the entry and keeps every other entry (as a multiset: all other counts unchanged) |
| MongoArrays.PullAbsent | controllers/userController.js:709-713 | pulling an entry that is not there changes nothing |
| MongoArrays.PullUndoesPush | controllers/userController.js:469-480 | a pull after a push of a new entry restores the array exactly |
| MongoArrays.NoDupCount | controllers/userController.js:431-436 | in a duplicate-free array a present entry occurs exactly once |
| MongoArrays.PullPresentLength | controllers/userController.js:545-553 | pulling a present entry from a duplicate-free array shortens it by one, matching the `$inc: -1` beside it |
| MongoArrays.PullKeepsNoDup | controllers/userController.js:545-549 | a pull keeps an array duplicate-free |
| MongoArrays.PushKeepsNoDup | controllers/userController.js:444-451 | pushing an absent entry keeps an array duplicate-free |
| MongoArrays.PushAfterPull | controllers/userController.js:568-579 | a push after a pull restores the entries as a multiset, and restores the array itself iff the entry was last |
| UserModel.ToLower | models/userModel.js:22-24 | the email setter lower-cases character by character, keeps the length and leaves no upper-case letter |
| UserModel.ToLowerIdempotent | models/userModel.js:22-24 | lower-casing twice is lower-casing once |
| UserModel.NewUser | models/userModel.js:27-91 | a new document stores the lower-cased email and the given fields; counters default to 0 and lists to empty |
| UserModel.PathErrors | models/userModel.js:27-54 | the validators report no path error iff every field passes (required, isEmail, maxlength 20, city enum) |
| UserModel.ErrorMap | models/userModel.js:27-54 | the error map's keys are exactly the failing paths, and each entry is a validator error object |
| UserModel.PreSavePassword | models/userModel.js:101-137 | an unmodified password passes; a modified one under 8 or over 50 characters fails with the hook's message; otherwise it passes iff hashing succeeds, and is replaced by its hash |
| UserModel.SaveUser | models/userModel.js:27-137 | a save succeeds iff the validators pass, the password hook passes, no other user has the email or userURL, and the write succeeds; failed validation is a `ValidationError`; a stored document differs from the given one only by the hashed password |
| UserModel.SaveKeepsUniqueKeys | models/userModel.js:28-44 | a successful save keeps email and userURL unique |
| TrackModel.NewTrack | models/trackModel.js:49-116 | a new track stores the given fields; plays, likes and comments start at 0 and comments empty |
| TrackModel.TrackURLPattern | models/trackModel.js:10-18 | the trackURL validator accepts exactly the strings made of `-`, digits and characters from `A` to `z` (the `A-z` class) |
| TrackModel.TrackURLPatternAdmitsPunctuation | models/trackModel.js:13 | the `A-z` class lets `[`, `]`, `^`, `` ` `` and `\` through and refuses a space |
| TrackModel.DateUploadedValid | models/trackModel.js:20-35 | the date validator accepts exactly the dates within thirty minutes of now, either way |
| TrackModel.TrackCityValid | models/trackModel.js:43-46 | a track city is valid iff it is Belfast or Derry (which also meets the 5..20 length bounds) |
| TrackModel.PreSaveUploader | models/trackModel.js:119-137 | the pre-save hook passes iff the uploader id names a stored user, and otherwise fails with its message |
| TrackModel.SaveTrack | models/trackModel.js:49-137 | a track save succeeds iff the validators pass, the uploader exists, the trackURL is free and the write succeeds; `NoUploader` is reported iff only the uploader is missing |
| TrackModel.SaveKeepsUniqueTrackURLs | models/trackModel.js:64-71 | a successful save keeps trackURLs unique |
| Store.ReplaceUserKeepsConsistent | models/userModel.js:28-44 | an in-place update that keeps email, userURL and the document's sync keeps the collection consistent |
| Store.ReplaceTrackKeepsUnique | models/trackModel.js:64-71 | an in-place update that keeps the trackURL keeps the unique index |
| Store.CascadeTargetsStep | models/userModel.js:147-151 | one turn of the cascade adds the listed track to the removed set iff it is stored and its removal succeeds |
| Store.CascadeBlobsAdd | models/trackModel.js:140-150 | removing one more track adds its audio file to the deleted files, unless that delete fails |
| Store.Database.SaveUserDocument | models/userModel.js:101-137 | `save()` stores the document exactly when the save pipeline succeeds; nothing else changes |
| Store.Database.SaveNewUser | models/userModel.js:27-137 | a new user is saved with the password counted as modified and with its counters at 0 |
| Store.Database.InsertTrack | models/trackModel.js:119-137 | a new track is stored exactly when the track save succeeds, and the failure is reported otherwise |
| Store.Database.TrackPostRemove | models/trackModel.js:140-150 | the hook deletes the removed track's audio file; a null document or a failed delete changes nothing |
| Store.Database.RemoveTrack | models/trackModel.js:140-150 | removing a track removes it and (unless that delete fails) its audio file; a failed removal changes nothing |
| Store.Database.UserPostRemove | models/userModel.js:140-155 | the cascade removes exactly the listed tracks whose removal succeeds, and their audio files except failed deletes; other users and profile pictures stay |
| Store.Database.RemoveListedTrack | models/userModel.js:147-151 | one turn of the cascade extends both removed sets by that track |
| Store.Database.RemoveUser | models/userModel.js:140-155 | a user removal removes the document and runs the cascade on it; a failed removal changes nothing |
| Paging.ValidatePage | controllers/userController.js:14-27 | the page query is accepted iff page ≥ 1 and 1 ≤ per_page ≤ 10; each failure has its own message, and the page is checked first |
| Paging.PageSlice | controllers/trackController.js:97-98 | page `p` of `n` holds the entries from index `n·(p−1)`, at most `n` of them, and is empty past the end or for a negative start |
| Paging.PageOfAttributes | controllers/userController.js:388-401 | the index loop collects exactly `PageSlice` of the list |
| Paging.PageCount | controllers/trackController.js:110 | `ceil(total / perPage)`: enough pages for `total` entries, and one page fewer would not be enough |
| Relationships.FollowRejection | controllers/userController.js:407-441 | no rejection iff both ids are well-formed, distinct and stored, the requestor is the follower, and the followee is not yet followed; rejections are 400/403/404, 404 iff a user is missing, 403 iff the requestor is not the follower |
| Relationships.UnfollowRejection | controllers/userController.js:504-540 | the same for unfollowing, with "followee currently followed" in place of "not yet followed" |
| Relationships.LikeRejection | controllers/userController.js:651-680 | no rejection iff both ids are well-formed and stored, the requestor is the user, and the track is not yet liked; 404 iff the user or track is missing, 403 iff the requestor differs |
| Relationships.UnlikeRejection | controllers/userController.js:736-762 | the same for unliking, with "track currently liked" |
| Relationships.Followed | controllers/userController.js:444-465 | following appends the followee and increments both counters; nothing else in any user changes |
| Relationships.Unfollowed | controllers/userController.js:542-564 | unfollowing removes the followee and decrements both counters; nothing else changes |
| Relationships.Liked | controllers/userController.js:683-691 | liking appends the track to the user's liked tracks; nothing else changes |
| Relationships.Unliked | controllers/userController.js:765-776 | unliking removes the track from the liked tracks; nothing else changes |
| Relationships.LikesMoved | controllers/userController.js:696-703 | the `$inc` on `numLikes` moves that counter only |
| Relationships.FollowKeepsSync | controllers/userController.js:444-455 | the follower update keeps the follower in sync and grows list and counter by one |
| Relationships.UnfollowKeepsSync | controllers/userController.js:542-553 | the unfollow update keeps the follower in sync and shrinks list and counter by one |
| Relationships.LikeKeepsSync | controllers/userController.js:683-691 | the like update keeps the user in sync |
| Relationships.UnlikeKeepsSync | controllers/userController.js:765-776 | the unlike update keeps the user in sync and shrinks the liked list by one |
| Relationships.FollowCompensationRestores | controllers/userController.js:466-484 | the rollback after a failed followee update restores the follower exactly |
| Relationships.UnfollowCompensation | controllers/userController.js:565-584 | the rollback after a failed unfollow restores the follower's counter and followees as a multiset, and the list order iff the followee was last |
| Relationships.LikeCompensationRestores | controllers/userController.js:703-719 | the rollback after a failed like restores the user exactly |
| Relationships.UnlikeCompensation | controllers/userController.js:785-800 | the rollback after a failed unlike restores the liked tracks as a multiset, and the order iff the track was last |
| Relationships.FollowThenUnfollow | controllers/userController.js:403-597 | unfollowing right after following restores every user |
| Relationships.FollowEnablesUnfollow | controllers/userController.js:403-597 | after a follow, following again is refused and unfollowing is allowed |
| Relationships.UnfollowEnablesFollow | controllers/userController.js:403-597 | after an unfollow, following is allowed again and unfollowing is refused |
| Relationships.LikeThenUnlike | controllers/userController.js:647-814 | unliking right after liking restores the users and the likes counters |
| Relationships.LikeEnablesUnlike | controllers/userController.js:647-814 | after a like, liking again is refused and unliking is allowed |
| UserController.AddUserToFollowedUsers | controllers/userController.js:403-498 | a rejection is answered with the store unchanged; otherwise 200 once the follower write succeeds (500 if it fails), with users as before, fully followed, or rolled back / half-written according to the later writes |
| UserController.DeleteFollowedUser | controllers/userController.js:500-597 | the same for unfollowing, through `UnfollowWrites` |
| UserController.UnfollowWrites | controllers/userController.js:542-591 | the three writes of an unfollow leave users as before, unfollowed, compensated (followee re-appended) or half-written |
| UserController.AddTrackToLikedTracks | controllers/userController.js:647-730 | a rejection changes nothing; otherwise 200 once the user write succeeds (500 if not), with users and `numLikes` as liked, compensated or half-written |
| UserController.DeleteTrackFromLikedTracks | controllers/userController.js:732-814 | the same for unliking |
| UserController.ApplyUserUpdate | controllers/userController.js:133-137 | each non-empty field of the request replaces that field (email lower-cased); every other field is kept |
| UserController.UpdateKeepsSync | controllers/userController.js:133-137 | an update keeps a user in sync |
| UserController.UpdateUserByUserId | controllers/userController.js:115-155 | malformed id 400, unknown user 404, another requestor 403, all with the store unchanged; otherwise the save result decides 200 with the stored document, or 400 with the reported errors |
| UserController.PathErrorText | controllers/userController.js:183-205 | an entry is reported iff its path is one of the five schema paths; `password` and `userURL` entries are copied as they are (a validator error object stays an object); `email`, `displayName` and `city` become fixed texts |
| UserController.PathEntries | controllers/userController.js:183-206 | the visited error paths that are schema paths are exactly the reported ones |
| UserController.PathEntriesStep | controllers/userController.js:183-206 | visiting one more path adds exactly its entry |
| UserController.ResponseErrors | controllers/userController.js:157-208 | only schema paths are reported; email and userURL are reported iff the message names them (duplicate key) or a validator failed, the validator's entry taking precedence; password, displayName and city iff their validator (or the password hook) failed; a validation error's `password` and `userURL` entries are the validator error objects themselves, while the hook's password entry is text |
| UserController.MergeUpdate | controllers/userController.js:183-206 | adding an entry after merging equals merging after adding it to the right side |
| UserController.ConstructResponseErrors | controllers/userController.js:157-208 | the method builds exactly `ResponseErrors` |
| UserController.ReportPathErrors | controllers/userController.js:183-206 | the loop over the error paths adds exactly `PathEntries` to what was already reported |
| UserController.AbsentCharacterExcludes | controllers/userController.js:160-172 | a string lacking one of a pattern's characters does not contain the pattern |
| UserController.DuplicateEmailMessageMatches | controllers/userController.js:160-165 | the duplicate-email index message contains `email` |
| UserController.DuplicateEmailMessageMissesUserURL | controllers/userController.js:167-172 | the duplicate-email index message does not contain `userURL` |
| UserController.DuplicateEmailReported | controllers/userController.js:157-208 | a duplicate-email error is reported as exactly one `email` entry |
| UserController.ShortPasswordReported | controllers/userController.js:157-208 | the short-password hook error is reported under `password`, as the shorter text |
| UserController.ObjectsKept | controllers/userController.js:174-181 | an error whose name does not start with `E` is not rewritten by the hook check: the report is built from its own `errors` |
| UserController.DeleteUserByUserId | controllers/userController.js:210-231 | malformed id 400, unknown user 404, another requestor 403, all changing nothing; otherwise the user removal with its cascade, 200 on success and 500 with nothing changed on failure |
| UserController.DeleteLeavesFollowersAlone | models/userModel.js:140-155 | deleting a user leaves the other users' follower counts as they were |
| UserController.ProfileImage | controllers/userController.js:233-276 | malformed id 400, unknown user 404; the stored picture iff the user has one whose file exists, the default picture otherwise |
| UserController.UpdateUserProfilePicture | controllers/userController.js:278-338 | no image 400, malformed id 400, unknown user 404, another requestor 403, changing nothing; otherwise the old picture is deleted, the new one stored and the user saved with its id, and a 200 means the profile now serves the new image |
| TrackController.TrackStream | controllers/trackController.js:16-46 | malformed id 400; the file's bytes iff it is stored; 404 otherwise |
| TrackController.SelectFilter | controllers/trackController.js:83-91 | a track matches iff it has the requested title (when given) and the requested trackURL (when given) |
| TrackController.Matching | controllers/trackController.js:93 | reading the ids in a given order, the query returns only stored matching tracks and every stored matching track listed; when the order repeats no id, there is one result per such track |
| TrackController.NoDupTail | controllers/trackController.js:93 | the tail of an id order without repeats has no repeats and lacks the head |
| TrackController.Find | controllers/trackController.js:93 | `find` in the collection's natural order returns exactly the stored matching tracks, one per document: as many as `count` counts (line 122) |
| TrackController.ConsKeepsSorted | controllers/trackController.js:94-96 | a track with at least the head's plays can go in front of a list sorted by plays |
| TrackController.InsertByPlays | controllers/trackController.js:94-96 | insertion into a list sorted by plays keeps it sorted and adds exactly the one track |
| TrackController.SortByPlays | controllers/trackController.js:94-96 | the sort orders by plays, most first, and is a permutation |
| TrackController.SliceKeepsSorted | controllers/trackController.js:97-98 | a contiguous part of a sorted list is sorted |
| TrackController.SortedSlice | controllers/trackController.js:93-98 | a part of the sorted list is sorted and holds only entries of the query result |
| TrackController.PageOfSorted | controllers/trackController.js:93-98 | a page of the sorted result is sorted and holds only query results |
| TrackController.MatchingPage | controllers/trackController.js:93-128 | the page is 404 iff the matching documents do not reach it; otherwise it holds 1 to per_page matching stored tracks, is the page of the play-sorted `find` result, and carries `total` equal to the count of matching documents, the page and `ceil(total / per_page)` |
| TrackController.GetTracks | controllers/trackController.js:65-119 | defaults 1 and 5; a bad page query is 400 with its message; otherwise the result is `MatchingPage` for the filter the query strings select; with no query strings there is a page iff the collection is non-empty, with `total` the number of tracks and min(5, total) of them |
| TrackController.TopByPlays | controllers/trackController.js:168-172 | the top `n` are a sorted prefix of the sorted list: no track left out has more plays than one kept |
| TrackController.GetChartOfCity | controllers/trackController.js:154-183 | a city the schema refuses is 400; 200 with a message iff no stored track has that city; otherwise the top ten by plays of the `find` result, as many as min(10, number of stored tracks of that city), all stored and of that city |
| TrackController.CityChartFacts | controllers/trackController.js:162-176 | the `find` result for a city is empty iff no stored track has it; its top ten has min(10, that number) tracks, all stored and of that city |
| TrackController.ValidatePostTrackForm | controllers/trackController.js:185-228 | the form passes iff every check passes; the title is checked first, the file last, and the date message is given iff everything before passes and the date is in an earlier minute than now |
| TrackController.AcceptedUploadDates | controllers/trackController.js:214 | the form's minute check and the schema's window together accept exactly the dates from the start of the current minute to thirty minutes ahead |
| TrackController.OneMinuteOldDateRefused | controllers/trackController.js:214-215 | a date one minute old passes the schema but the form refuses it |
| TrackController.FormTrack | controllers/trackController.js:253-262 | the new track references the upload stream and the uploader, with its counters at 0 |
| TrackController.PushUploadedTrack | controllers/trackController.js:287-298 | the uploader gains the track at the end of its list and one on its counter, nothing else |
| TrackController.PostTrack | controllers/trackController.js:230-318 | a refused form is 400 with its message and a malformed uploader 500, changing nothing; a failed save answers 400 (no uploader) or 500 and changes nothing; otherwise 201, and the store ends with the track and its file linked to the uploader, or the track without its file (failed pipe), or as before / partly undone (failed uploader update) |
| TrackController.TrackWithURL | models/trackModel.js:64-71 | the chosen track is stored under that trackURL |
| TrackController.TrackWithURLIsUnique | models/trackModel.js:64-71 | with the unique index, the track stored under a trackURL is the only one |
| TrackController.FindTrackByURL | controllers/trackController.js:379 | `findOne` finds a track iff one has the trackURL, and it is that track |
| TrackController.AppendComment | controllers/trackController.js:385-390 | `$push` adds exactly the one comment and leaves `numComments` as it was |
| TrackController.AppendCommentLeavesCounterBehind | controllers/trackController.js:385-390 | after a comment, a counter that matched the comments is one short |
| TrackController.AddCommentToTrackByTrackURL | controllers/trackController.js:367-398 | malformed commenter, unknown trackURL, unknown commenter and failed write are 400 and change nothing; otherwise 200 and exactly the one comment is added |
| TrackController.UpdateTrackTitleByTrackURL | controllers/trackController.js:320-339 | over 100 characters 400, empty 500, unknown trackURL 400, all changing nothing; otherwise 200 with only the title replaced |
| TrackController.UpdateTrackDescriptionByTrackURL | controllers/trackController.js:400-436 | over 4000 characters 400, unknown trackURL 404, changing nothing; otherwise the description is written, and the answer is 400 when it is unchanged and 200 otherwise |
| TrackController.DeleteTrackByTrackURL | controllers/trackController.js:341-365 | 404 iff no track has the trackURL; 200 iff the track found under it (`track[0]`, the only one under the unique index) was uploaded by the requestor; 403 otherwise; nothing is removed |
| TrackController.UploaderOfURL | controllers/trackController.js:353-356 | with unique trackURLs, some track under the trackURL has the requestor as uploader iff the track found under it has |

## Left out

- HTTP routing, the JWT middleware (the requestor id is a parameter) and multer's upload limits and their "Error uploading your track" answer are not modelled.
- Errors of database reads (`find`, `findOne`, `count`) are not modelled: every read succeeds. Failures of writes are modelled.
- Only the first response of a handler is modelled. The second one is left out in three places: the 500 sent after a rollback that follows an already-sent 200; the 500 of a failed audio pipe after the 201 of `postTrack`; and the answers of the profile-picture delete/pipe callbacks.
- Concurrency and interleaving of the callback chains is not modelled: each handler runs to completion alone.
- UserModel.ToLower: lower-cases ASCII letters only, not the whole of Unicode as `String.prototype.toLowerCase` does.
- Messages that embed ids, titles or descriptions (for example "This user … already follows …" or "Old track title (…) updated …") are modelled as fixed texts. Mongoose's own error messages are modelled as their fixed parts.
- Query strings are integers or absent. JavaScript's coercion of text such as `"2abc"` by `parseInt` and by `page - 1` is not modelled.
- AddUserToFollowedUsers: ids are compared as ObjectIds, so every spelling of one id is the same id. The handler compares the raw request strings for the self check (controllers/userController.js:411) and an ObjectId with a string for the already-following check (433). Another valid spelling of the same id, such as upper-case hex or a 12-character string, passes both checks there: a user can follow themself, or push a followee twice, and the followee list and counter then disagree with the no-duplicate invariant.
- DeleteFollowedUser: compares ids as ObjectIds. With the text comparisons at controllers/userController.js:509 and 532, another spelling of the id passes the self check and fails the currently-followed check, so the unfollow is refused.
- AddTrackToLikedTracks: compares ids as ObjectIds. With the text comparison at controllers/userController.js:672, another spelling of the track id passes the already-liked check and pushes a duplicate liked entry.
- DeleteTrackFromLikedTracks: compares ids as ObjectIds. With the text comparison at controllers/userController.js:755, another spelling of the track id fails the currently-liked check, so the unlike is refused.
- GetTracks, GetChartOfCity: the collection's natural order, in which `find` returns documents, is an input (`order`, listing every stored id once); the database chooses it.
- The liked-track entry key is one abstract key: the schema names it `likedTrack`, the handlers `trackId`.
- The album art fields, `comparePassword`, `authController.js` and the routes without handlers are not part of this model.
- `getUsers`, `getUserById`, `getFollowedUsersById`, `getLikedTracksByUserId` and `getTracksByUploaderId` are not modelled; only the paging helpers they share are.
- UpdateTrackTitleByTrackURL, UpdateTrackDescriptionByTrackURL: the write always succeeds. A failing write without validator errors would make the handler throw on `err.errors.title` / `err.errors.description`.
- PostTrack: the date stored is the one the form's ISO 8601 parse gives. Mongoose's `Date` cast may read some strings differently.
- SortByPlays: tracks with equal plays keep their natural order. The database leaves that order unspecified.
- PostTrack: the `trackBinaryId` field of the 201 body (which holds the track's own id) is not modelled.
- The comment's `datePosted` is kept as the text sent, without the `Date` cast.
- ShortPasswordReported: states only the `password` entry, not that it is the only one.

Behaviour of the code that differs from what its own comments and messages suggest. The model follows the code:

- Adding a comment does not increment `numComments` (`AppendCommentLeavesCounterBehind`).
- `deleteTrackByTrackURL` answers 200 "deleted successfully" but removes nothing (`DeleteTrackByTrackURL`).
- A failed audio pipe leaves the track document pointing at a missing file, after a 201 (`PostTrack`).
- Deleting a user removes their tracks, but leaves their profile picture and the follower counts of the users they followed (`DeleteLeavesFollowersAlone`).
- The form's "more then thirty minutes before" message is given for any date in an earlier minute than now (`OneMinuteOldDateRefused`).
- The trackURL class `A-z` also admits `[ \ ] ^ _` and `` ` `` (`TrackURLPatternAdmitsPunctuation`).
- The compensation of a failed unfollow or unlike re-appends the entry, so it restores the order only when the entry was last (`UnfollowCompensation`, `UnlikeCompensation`).
