/**
  The state-changing handlers of controllers/userController.js, run against
  the store: follow, unfollow, like, unlike, the user update with its
  error-report construction, the account deletion, the profile-picture
  replacement, and the profile-picture read.

  Every store write's success is a parameter, so each compensation path is
  reachable. The reads that precede the writes are infallible in this model.
  The response is the first one the handler sends.
 */
module UserController {
  import opened Common
  import opened MongoArrays
  import opened UserModel
  import opened TrackModel
  import opened Store
  import opened Relationships

  const FOLLOW_FAILED := "Error following user"
  const NOW_FOLLOWING := "User is now following the requested user"
  const NO_LONGER_FOLLOWING := "User is no longer following the requested user"
  const LIKE_FAILED := "Error liking track"
  const LIKED := "User has liked the requested track"
  const UNLIKE_FAILED := "Error unliking track"
  const UNLIKED := "User has removed the requested track from likes list"

  // ---------------------------------------------------------------------
  // Follow and unfollow
  // ---------------------------------------------------------------------

  /**
    `addUserToFollowedUsersById`. After the checks, the follower is updated
    (`$push` and `$inc`), then the followee (`$inc`); when the followee
    update fails, the follower update is undone by `$pull` and `$inc: -1`
    (`rollbackOk` says whether that write succeeds). The handler has already
    answered 200 when the rollback starts.
   */
  method AddUserToFollowedUsers(db: Database, follower: RawId, followee: RawId, requestor: ObjectId,
                                followerWriteOk: bool, followeeWriteOk: bool, rollbackOk: bool) returns (resp: Response)
    requires db.Valid()
    modifies db
    ensures db.Valid()
    ensures db.tracks == old(db.tracks)
    ensures db.trackBinaryFiles == old(db.trackBinaryFiles) && db.userProfileImageFiles == old(db.userProfileImageFiles)
    ensures FollowRejection(old(db.users), follower, followee, requestor).Some? ==>
      resp == FollowRejection(old(db.users), follower, followee, requestor).value && db.users == old(db.users)
    ensures FollowRejection(old(db.users), follower, followee, requestor).None? ==>
      var f, e := follower.id, followee.id;
      && resp.status == (if followerWriteOk then 200 else 500)
      && (!followerWriteOk ==> db.users == old(db.users))
      && (followerWriteOk && followeeWriteOk ==> db.users == Followed(old(db.users), f, e))
      && (followerWriteOk && !followeeWriteOk && rollbackOk ==> db.users == old(db.users))
      && (followerWriteOk && !followeeWriteOk && !rollbackOk ==> db.users == old(db.users)[f := PushFollowee(old(db.users)[f], e)])
  {
    var rejection := FollowRejection(db.users, follower, followee, requestor);
    if rejection.Some? {
      return rejection.value;
    }
    var f, e := follower.id, followee.id;
    if !followerWriteOk {
      return Reply(500, FOLLOW_FAILED);
    }
    var before := db.users[f];
    FollowKeepsSync(before, e);
    ReplaceUserKeepsConsistent(db.users, f, PushFollowee(before, e));
    db.users := db.users[f := PushFollowee(before, e)];
    resp := Reply(200, NOW_FOLLOWING);
    if followeeWriteOk {
      ReplaceUserKeepsConsistent(db.users, e, AddFollowers(db.users[e], 1));
      db.users := db.users[e := AddFollowers(db.users[e], 1)];
    } else if rollbackOk {
      FollowCompensationRestores(before, e);
      db.users := db.users[f := PullFollowee(db.users[f], e)];
      assert db.users == old(db.users);
    }
  }

  /**
    `deleteFollowedUserFromFollowedUsersList`: the mirror of the follow. The
    follower is updated (`$pull` and `$inc: -1`), then the followee
    (`$inc: -1`); when the followee update fails, the follower update is
    undone by `$push` and `$inc: 1`, which puts the followee back at the end
    of the list.
   */
  method DeleteFollowedUser(db: Database, follower: RawId, followee: RawId, requestor: ObjectId,
                            followerWriteOk: bool, followeeWriteOk: bool, rollbackOk: bool) returns (resp: Response)
    requires db.Valid()
    modifies db
    ensures db.Valid()
    ensures db.tracks == old(db.tracks)
    ensures db.trackBinaryFiles == old(db.trackBinaryFiles) && db.userProfileImageFiles == old(db.userProfileImageFiles)
    ensures UnfollowRejection(old(db.users), follower, followee, requestor).Some? ==>
      resp == UnfollowRejection(old(db.users), follower, followee, requestor).value && db.users == old(db.users)
    ensures UnfollowRejection(old(db.users), follower, followee, requestor).None? ==>
      var f, e := follower.id, followee.id;
      && resp.status == (if followerWriteOk then 200 else 500)
      && (!followerWriteOk ==> db.users == old(db.users))
      && (followerWriteOk && followeeWriteOk ==> db.users == Unfollowed(old(db.users), f, e))
      && (followerWriteOk && !followeeWriteOk && rollbackOk ==>
            db.users == old(db.users)[f := PushFollowee(PullFollowee(old(db.users)[f], e), e)])
      && (followerWriteOk && !followeeWriteOk && !rollbackOk ==> db.users == old(db.users)[f := PullFollowee(old(db.users)[f], e)])
  {
    var rejection := UnfollowRejection(db.users, follower, followee, requestor);
    if rejection.Some? {
      return rejection.value;
    }
    resp := UnfollowWrites(db, follower.id, followee.id, followerWriteOk, followeeWriteOk, rollbackOk);
  }

  /** The writes of an unfollow that passed its checks, with the compensation. */
  method UnfollowWrites(db: Database, f: ObjectId, e: ObjectId, followerWriteOk: bool, followeeWriteOk: bool, rollbackOk: bool)
    returns (resp: Response)
    requires db.Valid() && UnfollowAllowed(db.users, f, e, f)
    modifies db
    ensures db.Valid()
    ensures db.tracks == old(db.tracks)
    ensures db.trackBinaryFiles == old(db.trackBinaryFiles) && db.userProfileImageFiles == old(db.userProfileImageFiles)
    ensures resp.status == (if followerWriteOk then 200 else 500)
    ensures !followerWriteOk ==> db.users == old(db.users)
    ensures followerWriteOk && followeeWriteOk ==> db.users == Unfollowed(old(db.users), f, e)
    ensures followerWriteOk && !followeeWriteOk && rollbackOk ==>
      db.users == old(db.users)[f := PushFollowee(PullFollowee(old(db.users)[f], e), e)]
    ensures followerWriteOk && !followeeWriteOk && !rollbackOk ==> db.users == old(db.users)[f := PullFollowee(old(db.users)[f], e)]
  {
    if !followerWriteOk {
      return Reply(500, FOLLOW_FAILED);
    }
    var users := db.users;
    var pulled := PullFollowee(users[f], e);
    UnfollowKeepsSync(users[f], e);
    ReplaceUserKeepsConsistent(users, f, pulled);
    db.users := users[f := pulled];
    resp := Reply(200, NO_LONGER_FOLLOWING);
    if followeeWriteOk {
      var decremented := AddFollowers(users[e], -1);
      ReplaceUserKeepsConsistent(users[f := pulled], e, decremented);
      db.users := users[f := pulled][e := decremented];
    } else if rollbackOk {
      // the `$push` and `$inc: 1` applied to the pulled follower
      var restored := PushFollowee(pulled, e);
      FollowKeepsSync(pulled, e);
      ReplaceUserKeepsConsistent(users, f, restored);
      db.users := users[f := restored];
    }
  }

  // ---------------------------------------------------------------------
  // Like and unlike
  // ---------------------------------------------------------------------

  /**
    `addTrackToLikedTracksByUserId`. After the checks, the user gains the
    liked entry (`$push`), then the track's `numLikes` goes up (`$inc`);
    when the track update fails, the entry is pulled again.
   */
  method AddTrackToLikedTracks(db: Database, user: RawId, track: RawId, requestor: ObjectId,
                               userWriteOk: bool, trackWriteOk: bool, rollbackOk: bool) returns (resp: Response)
    requires db.Valid()
    modifies db
    ensures db.Valid()
    ensures db.trackBinaryFiles == old(db.trackBinaryFiles) && db.userProfileImageFiles == old(db.userProfileImageFiles)
    ensures LikeRejection(old(db.users), old(db.tracks), user, track, requestor).Some? ==>
      && resp == LikeRejection(old(db.users), old(db.tracks), user, track, requestor).value
      && db.users == old(db.users) && db.tracks == old(db.tracks)
    ensures LikeRejection(old(db.users), old(db.tracks), user, track, requestor).None? ==>
      var u, t := user.id, track.id;
      && resp.status == (if userWriteOk then 200 else 500)
      && (!userWriteOk ==> db.users == old(db.users) && db.tracks == old(db.tracks))
      && (userWriteOk && trackWriteOk ==> db.users == Liked(old(db.users), u, t) && db.tracks == LikesMoved(old(db.tracks), t, 1))
      && (userWriteOk && !trackWriteOk ==> db.tracks == old(db.tracks))
      && (userWriteOk && !trackWriteOk && rollbackOk ==> db.users == old(db.users))
      && (userWriteOk && !trackWriteOk && !rollbackOk ==> db.users == Liked(old(db.users), u, t))
  {
    var rejection := LikeRejection(db.users, db.tracks, user, track, requestor);
    if rejection.Some? {
      return rejection.value;
    }
    var u, t := user.id, track.id;
    if !userWriteOk {
      return Reply(500, LIKE_FAILED);
    }
    var before := db.users[u];
    LikeKeepsSync(before, t);
    ReplaceUserKeepsConsistent(db.users, u, PushLikedTrack(before, t));
    db.users := db.users[u := PushLikedTrack(before, t)];
    resp := Reply(200, LIKED);
    if trackWriteOk {
      ReplaceTrackKeepsUnique(db.tracks, t, AddLikes(db.tracks[t], 1));
      db.tracks := db.tracks[t := AddLikes(db.tracks[t], 1)];
    } else if rollbackOk {
      LikeCompensationRestores(before, t);
      db.users := db.users[u := PullLikedTrack(db.users[u], t)];
      assert db.users == old(db.users);
    }
  }

  /**
    `deleteTrackFromUserByUserId`: the mirror of the like. The entry is
    pulled, then `numLikes` goes down; when the track update fails, the entry
    is pushed back at the end of the list.
   */
  method DeleteTrackFromLikedTracks(db: Database, user: RawId, track: RawId, requestor: ObjectId,
                                    userWriteOk: bool, trackWriteOk: bool, rollbackOk: bool) returns (resp: Response)
    requires db.Valid()
    modifies db
    ensures db.Valid()
    ensures db.trackBinaryFiles == old(db.trackBinaryFiles) && db.userProfileImageFiles == old(db.userProfileImageFiles)
    ensures UnlikeRejection(old(db.users), old(db.tracks), user, track, requestor).Some? ==>
      && resp == UnlikeRejection(old(db.users), old(db.tracks), user, track, requestor).value
      && db.users == old(db.users) && db.tracks == old(db.tracks)
    ensures UnlikeRejection(old(db.users), old(db.tracks), user, track, requestor).None? ==>
      var u, t := user.id, track.id;
      && resp.status == (if userWriteOk then 200 else 500)
      && (!userWriteOk ==> db.users == old(db.users) && db.tracks == old(db.tracks))
      && (userWriteOk && trackWriteOk ==> db.users == Unliked(old(db.users), u, t) && db.tracks == LikesMoved(old(db.tracks), t, -1))
      && (userWriteOk && !trackWriteOk ==> db.tracks == old(db.tracks))
      && (userWriteOk && !trackWriteOk && rollbackOk ==>
            db.users == old(db.users)[u := PushLikedTrack(PullLikedTrack(old(db.users)[u], t), t)])
      && (userWriteOk && !trackWriteOk && !rollbackOk ==> db.users == Unliked(old(db.users), u, t))
  {
    var rejection := UnlikeRejection(db.users, db.tracks, user, track, requestor);
    if rejection.Some? {
      return rejection.value;
    }
    var u, t := user.id, track.id;
    if !userWriteOk {
      return Reply(500, UNLIKE_FAILED);
    }
    var before := db.users[u];
    UnlikeKeepsSync(before, t);
    ReplaceUserKeepsConsistent(db.users, u, PullLikedTrack(before, t));
    db.users := db.users[u := PullLikedTrack(before, t)];
    resp := Reply(200, UNLIKED);
    if trackWriteOk {
      ReplaceTrackKeepsUnique(db.tracks, t, AddLikes(db.tracks[t], -1));
      db.tracks := db.tracks[t := AddLikes(db.tracks[t], -1)];
    } else if rollbackOk {
      LikeKeepsSync(PullLikedTrack(before, t), t);
      ReplaceUserKeepsConsistent(db.users, u, PushLikedTrack(PullLikedTrack(before, t), t));
      db.users := db.users[u := PushLikedTrack(db.users[u], t)];
    }
  }

  // ---------------------------------------------------------------------
  // Updating a user
  // ---------------------------------------------------------------------

  /** The optional fields of an update request body. */
  datatype UserUpdate = UserUpdate(
    email: Option<string>,
    password: Option<string>,
    userURL: Option<string>,
    displayName: Option<string>,
    city: Option<string>)

  /**
    `if (candidateX) user.x = candidateX` for each field: only the fields
    present (and non-empty) in the request are overwritten, the email through
    its lower-casing setter; the counters, lists and picture stay.
   */
  function ApplyUserUpdate(u: User, req: UserUpdate): (r: User)
    ensures r.email == if Present(req.email) then ToLower(req.email.value) else u.email
    ensures r.password == if Present(req.password) then req.password.value else u.password
    ensures r.userURL == if Present(req.userURL) then req.userURL.value else u.userURL
    ensures r.displayName == if Present(req.displayName) then req.displayName.value else u.displayName
    ensures r.city == if Present(req.city) then req.city.value else u.city
    ensures r.(email := u.email, password := u.password, userURL := u.userURL, displayName := u.displayName, city := u.city) == u
  {
    u.(email := if Present(req.email) then ToLower(req.email.value) else u.email,
       password := if Present(req.password) then req.password.value else u.password,
       userURL := if Present(req.userURL) then req.userURL.value else u.userURL,
       displayName := if Present(req.displayName) then req.displayName.value else u.displayName,
       city := if Present(req.city) then req.city.value else u.city)
  }

  /**
    `isModified("password")` after the update: a present password that
    differs from the stored (hashed) one. Assigning the stored value again
    does not mark the path modified, so it is not re-hashed.
   */
  predicate PasswordModified(u: User, req: UserUpdate)
  {
    Present(req.password) && req.password.value != u.password
  }

  /** An update request leaves the user's own counters and lists in sync. */
  lemma UpdateKeepsSync(u: User, req: UserUpdate)
    requires UserInSync(u)
    ensures UserInSync(ApplyUserUpdate(u, req))
  {
  }

  const INVALID_USER_ID_IN_REQUEST := "Invalid userId in request"
  const NO_USER_WITH_ID := "No user found with requested Id"
  const UPDATE_UNAUTHORIZED := "Unauthorized to update this users information"
  const UPDATE_FAILED := "Error updating user information"
  const UPDATE_DONE := "User information updated successfully"

  /**
    `updateUserByUserId`: a malformed id (400), a missing user (404) and a
    requestor other than the user (403) change nothing. Otherwise the fields
    present in the request are applied and the document goes through the save
    pipeline: 200 when stored, 400 with the error report otherwise.
   */
  method UpdateUserByUserId(db: Database, user: RawId, requestor: ObjectId, req: UserUpdate,
                            isEmail: string -> bool, hash: string -> string, hashOk: bool, writeOk: bool)
    returns (resp: Response)
    requires db.Valid()
    modifies db
    ensures db.Valid()
    ensures db.tracks == old(db.tracks)
    ensures db.trackBinaryFiles == old(db.trackBinaryFiles) && db.userProfileImageFiles == old(db.userProfileImageFiles)
    ensures user.Malformed? ==> resp == Reply(400, INVALID_USER_ID_IN_REQUEST) && db.users == old(db.users)
    ensures user.Valid? && user.id !in old(db.users) ==> resp == Reply(404, NO_USER_WITH_ID) && db.users == old(db.users)
    ensures user.Valid? && user.id in old(db.users) && requestor != user.id ==>
      resp == Reply(403, UPDATE_UNAUTHORIZED) && db.users == old(db.users)
    ensures user.Valid? && user.id in old(db.users) && requestor == user.id ==>
      var current := old(db.users)[user.id];
      var saved := SaveUser(old(db.users), user.id, ApplyUserUpdate(current, req), PasswordModified(current, req),
                            isEmail, hash, hashOk, writeOk);
      && (saved.Ok? ==> resp == Reply(200, UPDATE_DONE) && db.users == old(db.users)[user.id := saved.value])
      && (saved.Err? ==> resp == Response(400, UPDATE_FAILED, ResponseErrors(saved.error)) && db.users == old(db.users))
  {
    if user.Malformed? {
      return Reply(400, INVALID_USER_ID_IN_REQUEST);
    }
    var id := user.id;
    if id !in db.users {
      return Reply(404, NO_USER_WITH_ID);
    }
    if requestor != id {
      return Reply(403, UPDATE_UNAUTHORIZED);
    }
    var current := db.users[id];
    UpdateKeepsSync(current, req);
    var saved := db.SaveUserDocument(id, ApplyUserUpdate(current, req), PasswordModified(current, req),
                                     isEmail, hash, hashOk, writeOk);
    if saved.Err? {
      var errors := ConstructResponseErrors(saved.error);
      return Response(400, UPDATE_FAILED, errors);
    }
    resp := Reply(200, UPDATE_DONE);
  }

  // ---------------------------------------------------------------------
  // The error report of a failed save
  // ---------------------------------------------------------------------

  const DUPLICATE_EMAIL := "An account with this email address already exists"
  const DUPLICATE_USER_URL := "An account with this userURL already exists"
  const INVALID_EMAIL := "Invalid email address"
  const DISPLAY_NAME_TOO_LONG := "Display name exceeds maximum length of 20 characters"
  const INVALID_DISPLAY_NAME := "Invalid display name"
  const INVALID_CITY := "Invalid city. Valid cities include Belfast or Derry"

  /** `new RegExp(pattern).test(s)` for a pattern without special characters. */
  predicate Contains(s: string, pattern: string)
  {
    exists i :: 0 <= i <= |s| - |pattern| && MatchesAt(s, pattern, i)
  }

  /** `pattern` occurs in `s` at index `i`. */
  predicate MatchesAt(s: string, pattern: string, i: int)
  {
    0 <= i <= |s| - |pattern| && s[i..i + |pattern|] == pattern
  }

  /**
    The `err.errors` the report is built from: a password-length error from
    the pre-save hook is replaced by a `password` entry holding the shorter
    message as plain text; any other error keeps its validator error objects.
   */
  function EffectiveErrors(err: MongooseError): map<string, ErrorEntry>
  {
    if ErrString(err) == "Error: " + PASSWORD_TOO_SHORT then
      map["password" := Text("Password is under the minimum length of 8 characters")]
    else if ErrString(err) == "Error: " + PASSWORD_TOO_LONG then
      map["password" := Text("Password is over the maximum length of 50 characters")]
    else err.errors
  }

  /** The five paths of the user schema. */
  const SCHEMA_PATHS: set<string> := {"email", "password", "userURL", "displayName", "city"}

  /**
    The `switch` on one entry of `err.errors`: the value reported for it, if
    the path is one it knows. `password` and `userURL` entries are copied as
    they are; the others become fixed texts. Only a validator error object
    can sit under `displayName`, so its kind is always there to read.
   */
  function PathErrorText(path: string, e: ErrorEntry): (r: Option<ErrorEntry>)
    ensures r.Some? <==> path in SCHEMA_PATHS
    ensures path in {"password", "userURL"} ==> r == Some(e)
    ensures path in {"email", "displayName", "city"} ==> r.Some? && r.value.Text?
  {
    if path == "email" then Some(Text(INVALID_EMAIL))
    else if path == "password" then Some(e)
    else if path == "userURL" then Some(e)
    else if path == "displayName" then
      Some(Text(if e.ErrorObject? && e.error.kind == MaxLength then DISPLAY_NAME_TOO_LONG else INVALID_DISPLAY_NAME))
    else if path == "city" then Some(Text(INVALID_CITY))
    else None
  }

  /** The entries set from the message alone, before the path errors are visited. */
  function DuplicateKeyErrors(err: MongooseError): map<string, ErrorEntry>
  {
    var withEmail := if Contains(err.message, "email") then map["email" := Text(DUPLICATE_EMAIL)] else map[];
    if Contains(err.message, "userURL") then withEmail["userURL" := Text(DUPLICATE_USER_URL)] else withEmail
  }

  /** The entries the path errors among `visited` report. */
  function PathEntries(errors: map<string, ErrorEntry>, visited: set<string>): (r: map<string, ErrorEntry>)
    ensures forall p :: p in r <==> p in errors && p in visited && p in SCHEMA_PATHS
  {
    map p | p in errors && p in visited && PathErrorText(p, errors[p]).Some? :: PathErrorText(p, errors[p]).value
  }

  /** Visiting one more path error sets at most its own entry. */
  lemma PathEntriesStep(errors: map<string, ErrorEntry>, visited: set<string>, path: string)
    requires path in errors
    ensures PathEntries(errors, visited + {path}) ==
      if PathErrorText(path, errors[path]).Some?
      then PathEntries(errors, visited)[path := PathErrorText(path, errors[path]).value]
      else PathEntries(errors, visited)
  {
  }

  /**
    The report `constructResponseErrorsFromMongooseError` builds: the
    duplicate-key entries, each overridden by the entry of a path error on
    the same path. Only the five schema paths can appear. A validator error
    on `password` or `userURL` is reported as the whole error object.
   */
  function ResponseErrors(err: MongooseError): (r: map<string, ErrorEntry>)
    ensures r.Keys <= SCHEMA_PATHS
    ensures "email" in r <==> Contains(err.message, "email") || "email" in EffectiveErrors(err)
    ensures "email" in EffectiveErrors(err) ==> r["email"] == Text(INVALID_EMAIL)
    ensures "email" !in EffectiveErrors(err) && Contains(err.message, "email") ==> r["email"] == Text(DUPLICATE_EMAIL)
    ensures "userURL" in r <==> Contains(err.message, "userURL") || "userURL" in EffectiveErrors(err)
    ensures "userURL" in EffectiveErrors(err) ==> r["userURL"] == EffectiveErrors(err)["userURL"]
    ensures "userURL" !in EffectiveErrors(err) && Contains(err.message, "userURL") ==> r["userURL"] == Text(DUPLICATE_USER_URL)
    ensures forall p :: p in {"password", "displayName", "city"} ==> (p in r <==> p in EffectiveErrors(err))
    ensures "password" in EffectiveErrors(err) ==> r["password"] == EffectiveErrors(err)["password"]
    ensures err.name == "ValidationError" ==>
      forall p :: p in {"password", "userURL"} && p in err.errors ==> r[p] == err.errors[p]
  {
    var errors := EffectiveErrors(err);
    assert err.name == "ValidationError" ==> ErrString(err)[0] == 'V';
    DuplicateKeyErrors(err) + PathEntries(errors, errors.Keys)
  }

  /** Setting an entry after a merge is the same as setting it on the right-hand map. */
  lemma MergeUpdate(left: map<string, ErrorEntry>, right: map<string, ErrorEntry>, key: string, value: ErrorEntry)
    ensures (left + right)[key := value] == left + right[key := value]
  {
  }

  /**
    `constructResponseErrorsFromMongooseError`: sets the duplicate-key
    entries, then visits the path errors one by one, setting the entry each
    one reports.
   */
  method ConstructResponseErrors(err: MongooseError) returns (responseErrors: map<string, ErrorEntry>)
    ensures responseErrors == ResponseErrors(err)
  {
    responseErrors := map[];
    if Contains(err.message, "email") {
      responseErrors := responseErrors["email" := Text(DUPLICATE_EMAIL)];
    }
    if Contains(err.message, "userURL") {
      responseErrors := responseErrors["userURL" := Text(DUPLICATE_USER_URL)];
    }
    assert responseErrors == DuplicateKeyErrors(err);
    var errors := EffectiveErrors(err);
    responseErrors := ReportPathErrors(errors, responseErrors);
  }

  /** The `for...in` loop over the path errors, starting from the entries `initial`. */
  method ReportPathErrors(errors: map<string, ErrorEntry>, initial: map<string, ErrorEntry>) returns (responseErrors: map<string, ErrorEntry>)
    ensures responseErrors == initial + PathEntries(errors, errors.Keys)
  {
    responseErrors := initial;
    var remaining := errors.Keys;
    ghost var visited: set<string> := {};
    assert PathEntries(errors, visited) == map[];
    while remaining != {}
      invariant remaining <= errors.Keys && visited == errors.Keys - remaining
      invariant responseErrors == initial + PathEntries(errors, visited)
      decreases remaining
    {
      var path :| path in remaining;
      var entry := PathErrorText(path, errors[path]);
      ghost var before := PathEntries(errors, visited);
      PathEntriesStep(errors, visited, path);
      if entry.Some? {
        MergeUpdate(initial, before, path, entry.value);
        responseErrors := responseErrors[path := entry.value];
      }
      assert responseErrors == initial + PathEntries(errors, visited + {path});
      remaining := remaining - {path};
      visited := visited + {path};
    }
  }

  /** A pattern with a character that `s` does not hold never matches in `s`. */
  lemma AbsentCharacterExcludes(s: string, pattern: string, k: nat)
    requires k < |pattern| && pattern[k] !in s
    ensures !Contains(s, pattern)
  {
    forall i | 0 <= i <= |s| - |pattern|
      ensures !MatchesAt(s, pattern, i)
    {
      assert s[i..i + |pattern|][k] == s[i + k];
    }
  }

  /** The duplicate-key message of the `email` index matches the pattern `email`. */
  lemma DuplicateEmailMessageMatches(message: string)
    requires message == "E11000 duplicate key error index: email_1"
    ensures Contains(message, "email")
  {
    assert MatchesAt(message, "email", 34);
  }

  /** The duplicate-key message of the `email` index does not match the pattern `userURL`. */
  lemma DuplicateEmailMessageMissesUserURL(message: string)
    requires message == "E11000 duplicate key error index: email_1"
    ensures !Contains(message, "userURL")
  {
    assert "userURL"[1] == 's' && 's' !in message;
    AbsentCharacterExcludes(message, "userURL", 1);
  }

  /** A duplicate `email` reported by the unique index gives the duplicate-email entry alone. */
  lemma DuplicateEmailReported(err: MongooseError)
    requires err == MongooseError("MongoError", "E11000 duplicate key error index: email_1", map[])
    ensures ResponseErrors(err) == map["email" := Text(DUPLICATE_EMAIL)]
  {
    DuplicateEmailMessageMatches(err.message);
    DuplicateEmailMessageMissesUserURL(err.message);
    assert DuplicateKeyErrors(err) == map["email" := Text(DUPLICATE_EMAIL)];
    ObjectsKept(err);
    assert PathEntries(map[], {}) == map[];
  }

  /**
    An error whose name does not start with `E` is never one of the pre-save
    hook's password errors, so the report is built from its own `errors`.
   */
  lemma ObjectsKept(err: MongooseError)
    requires |err.name| > 0 && err.name[0] != 'E'
    ensures EffectiveErrors(err) == err.errors
  {
    assert ErrString(err)[0] == err.name[0];
    assert ("Error: " + PASSWORD_TOO_SHORT)[0] == 'E' && ("Error: " + PASSWORD_TOO_LONG)[0] == 'E';
  }

  /**
    A too-short password rejected by the pre-save hook is reported on the
    `password` path with the short message, whatever the message matches.
   */
  lemma ShortPasswordReported()
    ensures var r := ResponseErrors(MongooseError("Error", PASSWORD_TOO_SHORT, map[]));
      "password" in r && r["password"] == Text("Password is under the minimum length of 8 characters")
  {
  }

  // ---------------------------------------------------------------------
  // Deleting a user
  // ---------------------------------------------------------------------

  const NO_USER_WITH_THIS_ID := "No user associated with this Id"
  const DELETE_UNAUTHORIZED := "Unauthorized to delete this user"
  const DELETE_FAILED := "Error deleting user account"
  const DELETE_DONE := "User deleted successfully"

  /**
    `deleteUserByUserId`: a malformed id (400), a missing user (404) and a
    requestor other than the user (403) change nothing. Otherwise the user is
    removed with its post-remove cascade over its uploaded tracks: 200 when
    the removal write succeeds, 500 otherwise. Other users, their follower
    counts included, and the profile pictures are left as they are.
   */
  method DeleteUserByUserId(db: Database, user: RawId, requestor: ObjectId, removeOk: bool,
                            failingTrackRemovals: set<ObjectId>, failingBlobDeletes: set<ObjectId>) returns (resp: Response)
    requires db.Valid()
    modifies db
    ensures db.Valid()
    ensures db.userProfileImageFiles == old(db.userProfileImageFiles)
    ensures user.Malformed? ==> resp == Reply(400, INVALID_USER_ID_IN_REQUEST) && unchanged(db)
    ensures user.Valid? && user.id !in old(db.users) ==> resp == Reply(404, NO_USER_WITH_THIS_ID) && unchanged(db)
    ensures user.Valid? && user.id in old(db.users) && requestor != user.id ==>
      resp == Reply(403, DELETE_UNAUTHORIZED) && unchanged(db)
    ensures user.Valid? && user.id in old(db.users) && requestor == user.id ==>
      var removed := CascadeTargets(old(db.users)[user.id].uploadedTracks, old(db.tracks), failingTrackRemovals);
      && (!removeOk ==>
            && resp == Reply(500, DELETE_FAILED)
            && db.users == old(db.users) && db.tracks == old(db.tracks) && db.trackBinaryFiles == old(db.trackBinaryFiles))
      && (removeOk ==>
            && resp == Reply(200, DELETE_DONE)
            && db.users == old(db.users) - {user.id}
            && db.tracks == old(db.tracks) - removed
            && db.trackBinaryFiles == old(db.trackBinaryFiles) - CascadeBlobs(removed, old(db.tracks), failingBlobDeletes))
  {
    if user.Malformed? {
      return Reply(400, INVALID_USER_ID_IN_REQUEST);
    }
    var id := user.id;
    if id !in db.users {
      return Reply(404, NO_USER_WITH_THIS_ID);
    }
    if requestor != id {
      return Reply(403, DELETE_UNAUTHORIZED);
    }
    var ok := db.RemoveUser(id, removeOk, failingTrackRemovals, failingBlobDeletes);
    if !ok {
      return Reply(500, DELETE_FAILED);
    }
    resp := Reply(200, DELETE_DONE);
  }

  /** Deleting a user never changes another user, so nobody's follower count moves. */
  lemma DeleteLeavesFollowersAlone(users: map<ObjectId, User>, id: ObjectId, other: ObjectId)
    requires other in users && other != id
    ensures other in users - {id} && (users - {id})[other].numberOfFollowers == users[other].numberOfFollowers
  {
  }

  // ---------------------------------------------------------------------
  // The profile picture
  // ---------------------------------------------------------------------

  const NO_NEW_IMAGE := "No new image in request body"
  const INVALID_USER_ID_SHORT := "Invalid userId"
  const PICTURE_UNAUTHORIZED := "Unauthorized to update this user's profile picture"
  const PICTURE_PIPE_FAILED := "Error updating profile picture"
  const PICTURE_SAVE_FAILED := "Error updating user profile picture"
  const PICTURE_DONE := "User profile picture updated successfully"

  /** What the profile-picture read answers. */
  datatype ImageReply = ImageError(response: Response) | StoredImage(bytes: seq<byte>) | DefaultImage

  /**
    `getUserProfileImageById`: a malformed id gives 400 and a missing user
    404. A user whose picture id names a stored file gets that file; a user
    without a picture, or whose picture file is missing, gets the default
    picture.
   */
  function ProfileImage(users: map<ObjectId, User>, files: map<ObjectId, seq<byte>>, user: RawId): (r: ImageReply)
    ensures user.Malformed? ==> r == ImageError(Reply(400, INVALID_USER_ID_SHORT))
    ensures user.Valid? && user.id !in users ==> r == ImageError(Reply(404, NO_USER_WITH_THIS_ID))
    ensures r.StoredImage? <==>
      user.Valid? && user.id in users && users[user.id].profileImageGridFSId.Some?
      && users[user.id].profileImageGridFSId.value in files
    ensures r.StoredImage? ==> r.bytes == files[users[user.id].profileImageGridFSId.value]
    ensures r == DefaultImage <==>
      user.Valid? && user.id in users
      && (users[user.id].profileImageGridFSId.None? || users[user.id].profileImageGridFSId.value !in files)
  {
    if user.Malformed? then ImageError(Reply(400, INVALID_USER_ID_SHORT))
    else if user.id !in users then ImageError(Reply(404, NO_USER_WITH_THIS_ID))
    else match users[user.id].profileImageGridFSId
      case Some(blob) => if blob in files then StoredImage(files[blob]) else DefaultImage
      case None => DefaultImage
  }

  /**
    `updateUserProfilePictureByUserId`, store effect: a missing image (400),
    a malformed id (400), a missing user (404) and a requestor other than the
    user (403) change nothing. Otherwise the old picture file, if any, is
    deleted (`deleteOk`), the image is stored under the fresh upload id
    `newImageId` when the upload succeeds (`pipeOk`), and then the user,
    now pointing at that id, goes through the save pipeline. After a 200 the
    picture read returns the uploaded bytes.
   */
  method UpdateUserProfilePicture(db: Database, image: Option<seq<byte>>, user: RawId, requestor: ObjectId,
                                  newImageId: ObjectId, deleteOk: bool, pipeOk: bool,
                                  isEmail: string -> bool, writeOk: bool) returns (resp: Response)
    requires db.Valid() && newImageId !in db.userProfileImageFiles
    modifies db
    ensures db.Valid()
    ensures db.tracks == old(db.tracks) && db.trackBinaryFiles == old(db.trackBinaryFiles)
    ensures image.None? ==> resp == Reply(400, NO_NEW_IMAGE) && unchanged(db)
    ensures image.Some? && user.Malformed? ==> resp == Reply(400, INVALID_USER_ID_SHORT) && unchanged(db)
    ensures image.Some? && user.Valid? && user.id !in old(db.users) ==> resp == Reply(404, NO_USER_WITH_THIS_ID) && unchanged(db)
    ensures image.Some? && user.Valid? && user.id in old(db.users) && requestor != user.id ==>
      resp == Reply(403, PICTURE_UNAUTHORIZED) && unchanged(db)
    ensures image.Some? && user.Valid? && user.id in old(db.users) && requestor == user.id ==>
      var current := old(db.users)[user.id];
      var kept := if current.profileImageGridFSId.Some? && deleteOk
                  then old(db.userProfileImageFiles) - {current.profileImageGridFSId.value}
                  else old(db.userProfileImageFiles);
      var saved := SaveUser(old(db.users), user.id, current.(profileImageGridFSId := Some(newImageId)), false,
                            isEmail, s => s, true, writeOk);
      && (!pipeOk ==> resp == Reply(500, PICTURE_PIPE_FAILED) && db.users == old(db.users) && db.userProfileImageFiles == kept)
      && (pipeOk ==> db.userProfileImageFiles == kept[newImageId := image.value])
      && (pipeOk && saved.Err? ==> resp == Reply(500, PICTURE_SAVE_FAILED) && db.users == old(db.users))
      && (pipeOk && saved.Ok? ==> resp == Reply(200, PICTURE_DONE) && db.users == old(db.users)[user.id := saved.value])
    ensures resp.status == 200 ==>
      ProfileImage(db.users, db.userProfileImageFiles, user) == StoredImage(image.value)
  {
    if image.None? {
      return Reply(400, NO_NEW_IMAGE);
    }
    if user.Malformed? {
      return Reply(400, INVALID_USER_ID_SHORT);
    }
    var id := user.id;
    if id !in db.users {
      return Reply(404, NO_USER_WITH_THIS_ID);
    }
    if requestor != id {
      return Reply(403, PICTURE_UNAUTHORIZED);
    }
    var current := db.users[id];
    if current.profileImageGridFSId.Some? && deleteOk {
      db.userProfileImageFiles := db.userProfileImageFiles - {current.profileImageGridFSId.value};
    }
    if !pipeOk {
      return Reply(500, PICTURE_PIPE_FAILED);
    }
    db.userProfileImageFiles := db.userProfileImageFiles[newImageId := image.value];
    var saved := db.SaveUserDocument(id, current.(profileImageGridFSId := Some(newImageId)), false,
                                     isEmail, s => s, true, writeOk);
    if saved.Err? {
      return Reply(500, PICTURE_SAVE_FAILED);
    }
    resp := Reply(200, PICTURE_DONE);
  }
}
