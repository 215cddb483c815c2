/**
  The rules of the four relationship handlers of
  controllers/userController.js (follow, unfollow, like, unlike): the checks
  that reject a request before any write, the single-document writes each
  step performs (`$push`/`$pull` with `$inc`), and what a completed or
  compensated sequence does to the users and tracks.

  The stored relationship entries (`{userId}`, `{likedTrack}`/`{trackId}`)
  are represented by the related id alone; the liked-track entry has one
  abstract key.
 */
module Relationships {
  import opened Common
  import opened MongoArrays
  import opened UserModel
  import opened TrackModel

  // ---------------------------------------------------------------------
  // Messages
  // ---------------------------------------------------------------------

  const INVALID_FOLLOWER_ID := "Invalid follower userId in request"
  const INVALID_FOLLOWEE_ID := "Invalid followee userId in request"
  const FOLLOW_SELF := "Unable to follow yourself"
  const UNFOLLOW_SELF := "Unable to unfollow yourself"
  const NO_FOLLOWER := "userId of follower in request body does not map to user on system"
  const NO_FOLLOWEE := "userId of followee in request body does not map to user on system"
  const FOLLOW_UNAUTHORIZED := "Unauthorized to follow a user from this account"
  const UNFOLLOW_UNAUTHORIZED := "Unauthorized to unfollow a user from this account"
  const ALREADY_FOLLOWS := "This user already follows the requested user"
  const NOT_FOLLOWING := "This user is not currently following the requested user"

  const INVALID_USER_ID := "Invalid userId in request"
  const INVALID_TRACK_ID := "Invalid trackId in request"
  const NO_USER := "userId in request body does not map to user on system"
  const NO_TRACK := "trackId in request body does not map to track on system"
  const LIKE_UNAUTHORIZED := "Unauthorized to like a track from this account"
  const UNLIKE_UNAUTHORIZED := "Unauthorized to unlike a track from this account"
  const ALREADY_LIKES := "This user already likes the requested track"
  const NOT_LIKED := "Unable to remove track from liked tracks list. This user has not liked this track"

  // ---------------------------------------------------------------------
  // Single-document writes
  // ---------------------------------------------------------------------

  /** `{$push: {followees: {userId: e}}, $inc: {numberOfFollowees: 1}}` on the follower. */
  function PushFollowee(u: User, e: ObjectId): User
  {
    u.(followees := u.followees + [e], numberOfFollowees := u.numberOfFollowees + 1)
  }

  /** `{$pull: {followees: {userId: e}}, $inc: {numberOfFollowees: -1}}` on the follower. */
  function PullFollowee(u: User, e: ObjectId): User
  {
    u.(followees := Pull(u.followees, e), numberOfFollowees := u.numberOfFollowees - 1)
  }

  /** `{$inc: {numberOfFollowers: delta}}` on the followee. */
  function AddFollowers(u: User, delta: int): User
  {
    u.(numberOfFollowers := u.numberOfFollowers + delta)
  }

  /** `{$push: {likedTracks: {trackId: t}}}` on the liker. */
  function PushLikedTrack(u: User, t: ObjectId): User
  {
    u.(likedTracks := u.likedTracks + [t])
  }

  /** `{$pull: {likedTracks: {trackId: t}}}` on the liker. */
  function PullLikedTrack(u: User, t: ObjectId): User
  {
    u.(likedTracks := Pull(u.likedTracks, t))
  }

  /** `{$inc: {numLikes: delta}}` on the track. */
  function AddLikes(t: Track, delta: int): Track
  {
    t.(numLikes := t.numLikes + delta)
  }

  // ---------------------------------------------------------------------
  // When a request passes every check
  // ---------------------------------------------------------------------

  /** `f` may follow `e`: two different stored users, `f` is the requestor and does not follow `e` yet. */
  predicate FollowAllowed(users: map<ObjectId, User>, f: ObjectId, e: ObjectId, requestor: ObjectId)
  {
    f != e && f in users && e in users && requestor == f && e !in users[f].followees
  }

  /** `f` may unfollow `e`: two different stored users, `f` is the requestor and follows `e`. */
  predicate UnfollowAllowed(users: map<ObjectId, User>, f: ObjectId, e: ObjectId, requestor: ObjectId)
  {
    f != e && f in users && e in users && requestor == f && e in users[f].followees
  }

  /** `u` may like `t`: a stored user and track, `u` is the requestor and has not liked `t` yet. */
  predicate LikeAllowed(users: map<ObjectId, User>, tracks: map<ObjectId, Track>, u: ObjectId, t: ObjectId, requestor: ObjectId)
  {
    u in users && t in tracks && requestor == u && t !in users[u].likedTracks
  }

  /** `u` may unlike `t`: a stored user and track, `u` is the requestor and has liked `t`. */
  predicate UnlikeAllowed(users: map<ObjectId, User>, tracks: map<ObjectId, Track>, u: ObjectId, t: ObjectId, requestor: ObjectId)
  {
    u in users && t in tracks && requestor == u && t in users[u].likedTracks
  }

  // ---------------------------------------------------------------------
  // The checks made before any write
  // ---------------------------------------------------------------------

  /**
    The guard chain of `addUserToFollowedUsersById`: malformed ids (400),
    a self-follow (400), a missing follower then a missing followee (404),
    a requestor other than the follower (403), a followee already followed
    (400). `None` means the writes may start.
   */
  function FollowRejection(users: map<ObjectId, User>, follower: RawId, followee: RawId, requestor: ObjectId): (r: Option<Response>)
    ensures r.None? <==> follower.Valid? && followee.Valid? && FollowAllowed(users, follower.id, followee.id, requestor)
    ensures r.Some? ==> r.value.status in {400, 403, 404}
    ensures r.Some? && r.value.status == 404 <==>
      follower.Valid? && followee.Valid? && follower.id != followee.id && (follower.id !in users || followee.id !in users)
    ensures r.Some? && r.value.status == 403 <==>
      && follower.Valid? && followee.Valid? && follower.id != followee.id && follower.id in users && followee.id in users
      && requestor != follower.id
    ensures follower.Valid? && followee.Valid? && follower.id == followee.id ==> r == Some(Reply(400, FOLLOW_SELF))
  {
    if follower.Malformed? then Some(Reply(400, INVALID_FOLLOWER_ID))
    else if followee.Malformed? then Some(Reply(400, INVALID_FOLLOWEE_ID))
    else if follower.id == followee.id then Some(Reply(400, FOLLOW_SELF))
    else if follower.id !in users then Some(Reply(404, NO_FOLLOWER))
    else if followee.id !in users then Some(Reply(404, NO_FOLLOWEE))
    else if requestor != follower.id then Some(Reply(403, FOLLOW_UNAUTHORIZED))
    else if followee.id in users[follower.id].followees then Some(Reply(400, ALREADY_FOLLOWS))
    else None
  }

  /** The guard chain of `deleteFollowedUserFromFollowedUsersList`, the mirror of the follow checks. */
  function UnfollowRejection(users: map<ObjectId, User>, follower: RawId, followee: RawId, requestor: ObjectId): (r: Option<Response>)
    ensures r.None? <==> follower.Valid? && followee.Valid? && UnfollowAllowed(users, follower.id, followee.id, requestor)
    ensures r.Some? ==> r.value.status in {400, 403, 404}
    ensures r.Some? && r.value.status == 404 <==>
      follower.Valid? && followee.Valid? && follower.id != followee.id && (follower.id !in users || followee.id !in users)
    ensures r.Some? && r.value.status == 403 <==>
      && follower.Valid? && followee.Valid? && follower.id != followee.id && follower.id in users && followee.id in users
      && requestor != follower.id
    ensures follower.Valid? && followee.Valid? && follower.id == followee.id ==> r == Some(Reply(400, UNFOLLOW_SELF))
  {
    if follower.Malformed? then Some(Reply(400, INVALID_FOLLOWER_ID))
    else if followee.Malformed? then Some(Reply(400, INVALID_FOLLOWEE_ID))
    else if follower.id == followee.id then Some(Reply(400, UNFOLLOW_SELF))
    else if follower.id !in users then Some(Reply(404, NO_FOLLOWER))
    else if followee.id !in users then Some(Reply(404, NO_FOLLOWEE))
    else if requestor != follower.id then Some(Reply(403, UNFOLLOW_UNAUTHORIZED))
    else if followee.id !in users[follower.id].followees then Some(Reply(400, NOT_FOLLOWING))
    else None
  }

  /**
    The guard chain of `addTrackToLikedTracksByUserId`: malformed ids (400),
    a missing user then a missing track (404), a requestor other than the
    user (403), a track already liked (400).
   */
  function LikeRejection(users: map<ObjectId, User>, tracks: map<ObjectId, Track>, user: RawId, track: RawId, requestor: ObjectId)
    : (r: Option<Response>)
    ensures r.None? <==> user.Valid? && track.Valid? && LikeAllowed(users, tracks, user.id, track.id, requestor)
    ensures r.Some? ==> r.value.status in {400, 403, 404}
    ensures r.Some? && r.value.status == 404 <==> user.Valid? && track.Valid? && (user.id !in users || track.id !in tracks)
    ensures r.Some? && r.value.status == 403 <==>
      user.Valid? && track.Valid? && user.id in users && track.id in tracks && requestor != user.id
  {
    if user.Malformed? then Some(Reply(400, INVALID_USER_ID))
    else if track.Malformed? then Some(Reply(400, INVALID_TRACK_ID))
    else if user.id !in users then Some(Reply(404, NO_USER))
    else if track.id !in tracks then Some(Reply(404, NO_TRACK))
    else if requestor != user.id then Some(Reply(403, LIKE_UNAUTHORIZED))
    else if track.id in users[user.id].likedTracks then Some(Reply(400, ALREADY_LIKES))
    else None
  }

  /** The guard chain of `deleteTrackFromUserByUserId`, the mirror of the like checks. */
  function UnlikeRejection(users: map<ObjectId, User>, tracks: map<ObjectId, Track>, user: RawId, track: RawId, requestor: ObjectId)
    : (r: Option<Response>)
    ensures r.None? <==> user.Valid? && track.Valid? && UnlikeAllowed(users, tracks, user.id, track.id, requestor)
    ensures r.Some? ==> r.value.status in {400, 403, 404}
    ensures r.Some? && r.value.status == 404 <==> user.Valid? && track.Valid? && (user.id !in users || track.id !in tracks)
    ensures r.Some? && r.value.status == 403 <==>
      user.Valid? && track.Valid? && user.id in users && track.id in tracks && requestor != user.id
  {
    if user.Malformed? then Some(Reply(400, INVALID_USER_ID))
    else if track.Malformed? then Some(Reply(400, INVALID_TRACK_ID))
    else if user.id !in users then Some(Reply(404, NO_USER))
    else if track.id !in tracks then Some(Reply(404, NO_TRACK))
    else if requestor != user.id then Some(Reply(403, UNLIKE_UNAUTHORIZED))
    else if track.id !in users[user.id].likedTracks then Some(Reply(400, NOT_LIKED))
    else None
  }

  // ---------------------------------------------------------------------
  // Completed sequences
  // ---------------------------------------------------------------------

  /**
    The users after a completed follow of `e` by `f`: the follower gains
    exactly one followee entry and one followee, the followee one follower,
    and nothing else changes.
   */
  function Followed(users: map<ObjectId, User>, f: ObjectId, e: ObjectId): (r: map<ObjectId, User>)
    requires f in users && e in users && f != e
    ensures r.Keys == users.Keys
    ensures r[f].followees == users[f].followees + [e]
    ensures r[f].numberOfFollowees == users[f].numberOfFollowees + 1
    ensures r[e].numberOfFollowers == users[e].numberOfFollowers + 1
    ensures r[f].(followees := users[f].followees, numberOfFollowees := users[f].numberOfFollowees) == users[f]
    ensures r[e].(numberOfFollowers := users[e].numberOfFollowers) == users[e]
    ensures forall k :: k in users && k != f && k != e ==> r[k] == users[k]
  {
    users[f := PushFollowee(users[f], e)][e := AddFollowers(users[e], 1)]
  }

  /**
    The users after a completed unfollow of `e` by `f`: every entry for `e`
    leaves the follower's list, both counters go down by one, nothing else
    changes.
   */
  function Unfollowed(users: map<ObjectId, User>, f: ObjectId, e: ObjectId): (r: map<ObjectId, User>)
    requires f in users && e in users && f != e
    ensures r.Keys == users.Keys
    ensures e !in r[f].followees
    ensures multiset(r[f].followees) == multiset(users[f].followees)[e := 0]
    ensures r[f].numberOfFollowees == users[f].numberOfFollowees - 1
    ensures r[e].numberOfFollowers == users[e].numberOfFollowers - 1
    ensures forall k :: k in users && k != f && k != e ==> r[k] == users[k]
  {
    users[f := PullFollowee(users[f], e)][e := AddFollowers(users[e], -1)]
  }

  /** The liker after a completed like: one more entry, nothing else changes. */
  function Liked(users: map<ObjectId, User>, u: ObjectId, t: ObjectId): (r: map<ObjectId, User>)
    requires u in users
    ensures r.Keys == users.Keys
    ensures r[u].likedTracks == users[u].likedTracks + [t]
    ensures r[u].(likedTracks := users[u].likedTracks) == users[u]
    ensures forall k :: k in users && k != u ==> r[k] == users[k]
  {
    users[u := PushLikedTrack(users[u], t)]
  }

  /** The liker after a completed unlike: every entry for the track is gone, nothing else changes. */
  function Unliked(users: map<ObjectId, User>, u: ObjectId, t: ObjectId): (r: map<ObjectId, User>)
    requires u in users
    ensures r.Keys == users.Keys
    ensures t !in r[u].likedTracks
    ensures multiset(r[u].likedTracks) == multiset(users[u].likedTracks)[t := 0]
    ensures forall k :: k in users && k != u ==> r[k] == users[k]
  {
    users[u := PullLikedTrack(users[u], t)]
  }

  /** The tracks after `numLikes` of `t` moves by `delta`. */
  function LikesMoved(tracks: map<ObjectId, Track>, t: ObjectId, delta: int): (r: map<ObjectId, Track>)
    requires t in tracks
    ensures r.Keys == tracks.Keys
    ensures r[t].numLikes == tracks[t].numLikes + delta
    ensures r[t].(numLikes := tracks[t].numLikes) == tracks[t]
    ensures forall k :: k in tracks && k != t ==> r[k] == tracks[k]
  {
    tracks[t := AddLikes(tracks[t], delta)]
  }

  // ---------------------------------------------------------------------
  // Counters in step with their lists
  // ---------------------------------------------------------------------

  /** The follower's first step keeps it in sync: list and counter both grow by one. */
  lemma FollowKeepsSync(u: User, e: ObjectId)
    requires UserInSync(u) && e !in u.followees
    ensures UserInSync(PushFollowee(u, e))
    ensures |PushFollowee(u, e).followees| - |u.followees| == 1
    ensures PushFollowee(u, e).numberOfFollowees - u.numberOfFollowees == 1
  {
    PushKeepsNoDup(u.followees, e);
  }

  /** The unfollower's first step keeps it in sync: list and counter both shrink by one. */
  lemma UnfollowKeepsSync(u: User, e: ObjectId)
    requires UserInSync(u) && e in u.followees
    ensures UserInSync(PullFollowee(u, e))
    ensures |PullFollowee(u, e).followees| - |u.followees| == -1
    ensures PullFollowee(u, e).numberOfFollowees - u.numberOfFollowees == -1
  {
    PullPresentLength(u.followees, e);
    PullKeepsNoDup(u.followees, e);
  }

  /** A like keeps the liked list duplicate-free. */
  lemma LikeKeepsSync(u: User, t: ObjectId)
    requires UserInSync(u) && t !in u.likedTracks
    ensures UserInSync(PushLikedTrack(u, t))
  {
    PushKeepsNoDup(u.likedTracks, t);
  }

  /** An unlike keeps the liked list duplicate-free and shortens it by one. */
  lemma UnlikeKeepsSync(u: User, t: ObjectId)
    requires UserInSync(u) && t in u.likedTracks
    ensures UserInSync(PullLikedTrack(u, t))
    ensures |PullLikedTrack(u, t).likedTracks| == |u.likedTracks| - 1
  {
    PullPresentLength(u.likedTracks, t);
    PullKeepsNoDup(u.likedTracks, t);
  }

  // ---------------------------------------------------------------------
  // Compensation and round trips
  // ---------------------------------------------------------------------

  /**
    The follow compensation (`$pull` and `$inc: -1` after the `$push` and
    `$inc: 1`) restores the follower exactly, because the checks guaranteed
    the followee was not listed before.
   */
  lemma FollowCompensationRestores(u: User, e: ObjectId)
    requires e !in u.followees
    ensures PullFollowee(PushFollowee(u, e), e) == u
  {
    PullUndoesPush(u.followees, e);
  }

  /**
    The unfollow compensation (`$push` and `$inc: 1` after the `$pull` and
    `$inc: -1`) restores the counter and the set of followees, but appends
    the followee at the end: the list is restored exactly when the followee
    was last.
   */
  lemma UnfollowCompensation(u: User, e: ObjectId)
    requires UserInSync(u) && e in u.followees
    ensures var r := PushFollowee(PullFollowee(u, e), e);
      && UserInSync(r)
      && r.numberOfFollowees == u.numberOfFollowees
      && multiset(r.followees) == multiset(u.followees)
      && (r == u <==> u.followees[|u.followees| - 1] == e)
  {
    UnfollowKeepsSync(u, e);
    FollowKeepsSync(PullFollowee(u, e), e);
    PushAfterPull(u.followees, e);
  }

  /** The like compensation (`$pull` after the `$push`) restores the liker exactly. */
  lemma LikeCompensationRestores(u: User, t: ObjectId)
    requires t !in u.likedTracks
    ensures PullLikedTrack(PushLikedTrack(u, t), t) == u
  {
    PullUndoesPush(u.likedTracks, t);
  }

  /** The unlike compensation restores the liked tracks as a multiset, moving the track to the end. */
  lemma UnlikeCompensation(u: User, t: ObjectId)
    requires UserInSync(u) && t in u.likedTracks
    ensures var r := PushLikedTrack(PullLikedTrack(u, t), t);
      && UserInSync(r)
      && multiset(r.likedTracks) == multiset(u.likedTracks)
      && (r == u <==> u.likedTracks[|u.likedTracks| - 1] == t)
  {
    UnlikeKeepsSync(u, t);
    LikeKeepsSync(PullLikedTrack(u, t), t);
    PushAfterPull(u.likedTracks, t);
  }

  /** Follow then unfollow returns both users, and every other user, to their initial state. */
  lemma FollowThenUnfollow(users: map<ObjectId, User>, f: ObjectId, e: ObjectId)
    requires FollowAllowed(users, f, e, f)
    ensures Unfollowed(Followed(users, f, e), f, e) == users
  {
    FollowCompensationRestores(users[f], e);
  }

  /** A completed follow makes the same follow a rejected request and the unfollow an allowed one. */
  lemma FollowEnablesUnfollow(users: map<ObjectId, User>, f: ObjectId, e: ObjectId)
    requires FollowAllowed(users, f, e, f)
    ensures !FollowAllowed(Followed(users, f, e), f, e, f)
    ensures UnfollowAllowed(Followed(users, f, e), f, e, f)
  {
  }

  /** A completed unfollow makes the follow allowed again and the same unfollow a rejected request. */
  lemma UnfollowEnablesFollow(users: map<ObjectId, User>, f: ObjectId, e: ObjectId)
    requires UnfollowAllowed(users, f, e, f)
    ensures FollowAllowed(Unfollowed(users, f, e), f, e, f)
    ensures !UnfollowAllowed(Unfollowed(users, f, e), f, e, f)
  {
  }

  /** Like then unlike is the identity on the liker's list and on the track's `numLikes`. */
  lemma LikeThenUnlike(users: map<ObjectId, User>, tracks: map<ObjectId, Track>, u: ObjectId, t: ObjectId)
    requires LikeAllowed(users, tracks, u, t, u)
    ensures Unliked(Liked(users, u, t), u, t) == users
    ensures LikesMoved(LikesMoved(tracks, t, 1), t, -1) == tracks
  {
    LikeCompensationRestores(users[u], t);
    assert AddLikes(AddLikes(tracks[t], 1), -1) == tracks[t];
  }

  /** A completed like makes the same like a rejected request and the unlike an allowed one. */
  lemma LikeEnablesUnlike(users: map<ObjectId, User>, tracks: map<ObjectId, Track>, u: ObjectId, t: ObjectId)
    requires LikeAllowed(users, tracks, u, t, u)
    ensures !LikeAllowed(Liked(users, u, t), LikesMoved(tracks, t, 1), u, t, u)
    ensures UnlikeAllowed(Liked(users, u, t), LikesMoved(tracks, t, 1), u, t, u)
  {
  }
}
