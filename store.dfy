/**
  The database the handlers work on: the `user` and `Track` collections and
  the two GridFS buckets, `trackBinaryFiles` (audio) and
  `userProfileImageFiles` (profile pictures). Its methods are the
  model-level operations whose behaviour models/userModel.js and
  models/trackModel.js define: saving a document through its schema and
  hooks, and removing a document together with its post-remove hook.
 */
module Store {
  import opened Common
  import opened MongoArrays
  import opened UserModel
  import opened TrackModel

  /** Every user document is in sync with its own lists, and the user unique indexes hold. */
  ghost predicate ConsistentUsers(users: map<ObjectId, User>)
  {
    UniqueUserKeys(users) && forall id :: id in users ==> UserInSync(users[id])
  }

  /**
    The tracks a user's post-remove cascade removes: those listed in
    `uploadedTracks` that are stored and whose removal write succeeds.
   */
  function CascadeTargets(listed: seq<ObjectId>, tracks: map<ObjectId, Track>, failing: set<ObjectId>): set<ObjectId>
  {
    set t | t in listed && t in tracks && t !in failing
  }

  /** The audio files deleted when the tracks `targets` are removed: theirs, except deletes that fail. */
  function CascadeBlobs(targets: set<ObjectId>, tracks: map<ObjectId, Track>, failingBlobs: set<ObjectId>): set<ObjectId>
  {
    (set t | t in targets && t in tracks :: tracks[t].trackBinaryId) - failingBlobs
  }

  lemma CascadeTargetsStep(listed: seq<ObjectId>, i: nat, tracks: map<ObjectId, Track>, failing: set<ObjectId>)
    requires i < |listed|
    ensures CascadeTargets(listed[..i + 1], tracks, failing)
         == CascadeTargets(listed[..i], tracks, failing)
            + (if listed[i] in tracks && listed[i] !in failing then {listed[i]} else {})
  {
    assert listed[..i + 1] == listed[..i] + [listed[i]];
  }

  lemma CascadeBlobsAdd(targets: set<ObjectId>, t: ObjectId, tracks: map<ObjectId, Track>, failingBlobs: set<ObjectId>)
    requires t in tracks
    ensures CascadeBlobs(targets + {t}, tracks, failingBlobs)
         == CascadeBlobs(targets, tracks, failingBlobs) + ({tracks[t].trackBinaryId} - failingBlobs)
  {
  }

  /**
    An in-place update of one user that keeps its `email` and `userURL` and
    leaves it in sync keeps the whole collection consistent.
   */
  lemma ReplaceUserKeepsConsistent(users: map<ObjectId, User>, id: ObjectId, u: User)
    requires ConsistentUsers(users) && id in users
    requires u.email == users[id].email && u.userURL == users[id].userURL
    requires UserInSync(u)
    ensures ConsistentUsers(users[id := u])
  {
    var m := users[id := u];
    forall a, b | a in m && b in m && a != b
      ensures m[a].email != m[b].email && m[a].userURL != m[b].userURL
    {
      assert a in users && b in users;
    }
  }

  /** An in-place update of one track that keeps its `trackURL` keeps the unique index. */
  lemma ReplaceTrackKeepsUnique(tracks: map<ObjectId, Track>, id: ObjectId, t: Track)
    requires UniqueTrackURLs(tracks) && id in tracks
    requires t.trackURL == tracks[id].trackURL
    ensures UniqueTrackURLs(tracks[id := t])
  {
    var m := tracks[id := t];
    forall a, b | a in m && b in m && a != b
      ensures m[a].trackURL != m[b].trackURL
    {
      assert a in tracks && b in tracks;
    }
  }

  class Database {
    var users: map<ObjectId, User>
    var tracks: map<ObjectId, Track>
    var trackBinaryFiles: map<ObjectId, seq<byte>>
    var userProfileImageFiles: map<ObjectId, seq<byte>>

    /** The unique indexes hold and every user's counters match its lists. */
    ghost predicate Valid()
      reads this
    {
      ConsistentUsers(users) && UniqueTrackURLs(tracks)
    }

    constructor ()
      ensures Valid()
      ensures users == map[] && tracks == map[]
      ensures trackBinaryFiles == map[] && userProfileImageFiles == map[]
    {
      users, tracks := map[], map[];
      trackBinaryFiles, userProfileImageFiles := map[], map[];
    }

    // -------------------------------------------------------------------
    // Saving documents
    // -------------------------------------------------------------------

    /**
      `user.save()` of the document `doc` under `id`, new or existing: it is
      stored, with its password hashed when modified, exactly when the save
      pipeline succeeds; nothing else changes.
     */
    method SaveUserDocument(id: ObjectId, doc: User, passwordModified: bool, isEmail: string -> bool,
                            hash: string -> string, hashOk: bool, writeOk: bool) returns (r: Result<User, MongooseError>)
      requires Valid() && UserInSync(doc)
      modifies this
      ensures Valid()
      ensures r == SaveUser(old(users), id, doc, passwordModified, isEmail, hash, hashOk, writeOk)
      ensures users == if r.Ok? then old(users)[id := r.value] else old(users)
      ensures tracks == old(tracks)
      ensures trackBinaryFiles == old(trackBinaryFiles) && userProfileImageFiles == old(userProfileImageFiles)
    {
      r := SaveUser(users, id, doc, passwordModified, isEmail, hash, hashOk, writeOk);
      if r.Ok? {
        SaveKeepsUniqueKeys(users, id, doc, passwordModified, isEmail, hash, hashOk, writeOk);
        users := users[id := r.value];
      }
    }

    /**
      `new User({...}).save()`: a new document, with the email lower-cased
      and the counters at their default 0, goes through the save pipeline
      with its password counted as modified.
     */
    method SaveNewUser(id: ObjectId, email: string, password: string, userURL: string, displayName: string, city: string,
                       isEmail: string -> bool, hash: string -> string, hashOk: bool, writeOk: bool)
      returns (r: Result<User, MongooseError>)
      requires Valid() && id !in users
      modifies this
      ensures Valid()
      ensures r == SaveUser(old(users), id, NewUser(email, password, userURL, displayName, city), true, isEmail, hash, hashOk, writeOk)
      ensures r.Ok? ==> r.value.numberOfFollowers == 0 && r.value.numberOfFollowees == 0 && r.value.numberOfTracksUploaded == 0
      ensures users == if r.Ok? then old(users)[id := r.value] else old(users)
      ensures tracks == old(tracks)
      ensures trackBinaryFiles == old(trackBinaryFiles) && userProfileImageFiles == old(userProfileImageFiles)
    {
      r := SaveUserDocument(id, NewUser(email, password, userURL, displayName, city), true, isEmail, hash, hashOk, writeOk);
    }

    /**
      `track.save()` of a new document under the fresh id `id`: stored exactly
      when the save pipeline succeeds, and the reported failure otherwise.
     */
    method InsertTrack(id: ObjectId, doc: Track, now: int, writeOk: bool) returns (failure: Option<TrackSaveFailure>)
      requires Valid() && id !in tracks
      modifies this
      ensures Valid()
      ensures failure == SaveTrack(old(users), old(tracks), id, doc, now, writeOk)
      ensures tracks == if failure.None? then old(tracks)[id := doc] else old(tracks)
      ensures users == old(users)
      ensures trackBinaryFiles == old(trackBinaryFiles) && userProfileImageFiles == old(userProfileImageFiles)
    {
      failure := SaveTrack(users, tracks, id, doc, now, writeOk);
      if failure.None? {
        SaveKeepsUniqueTrackURLs(users, tracks, id, doc, now, writeOk);
        tracks := tracks[id := doc];
      }
    }

    // -------------------------------------------------------------------
    // Removing documents and the post-remove hooks
    // -------------------------------------------------------------------

    /**
      The Track post-`findOneAndRemove` hook: nothing for a null document;
      otherwise the document's audio file is deleted from `trackBinaryFiles`.
      A failed delete (`deleteOk` false) is ignored.
     */
    method TrackPostRemove(doc: Option<Track>, deleteOk: bool)
      requires Valid()
      modifies this
      ensures Valid()
      ensures users == old(users) && tracks == old(tracks) && userProfileImageFiles == old(userProfileImageFiles)
      ensures trackBinaryFiles ==
        if doc.Some? && deleteOk then old(trackBinaryFiles) - {doc.value.trackBinaryId} else old(trackBinaryFiles)
    {
      if doc.None? {
        return;
      }
      if deleteOk {
        trackBinaryFiles := trackBinaryFiles - {doc.value.trackBinaryId};
      }
    }

    /**
      `Track.findOneAndRemove({_id: id})` followed by the post-remove hook.
      When the removal write fails nothing changes; when it succeeds the
      document (if any) is gone and its audio file is deleted unless that
      delete fails.
     */
    method RemoveTrack(id: ObjectId, removeOk: bool, blobDeleteOk: bool)
      requires Valid()
      modifies this
      ensures Valid()
      ensures users == old(users) && userProfileImageFiles == old(userProfileImageFiles)
      ensures tracks == if removeOk then old(tracks) - {id} else old(tracks)
      ensures trackBinaryFiles ==
        if removeOk && id in old(tracks) && blobDeleteOk then old(trackBinaryFiles) - {old(tracks)[id].trackBinaryId}
        else old(trackBinaryFiles)
    {
      if !removeOk {
        return;
      }
      var doc := if id in tracks then Some(tracks[id]) else None;
      tracks := tracks - {id};
      TrackPostRemove(doc, blobDeleteOk);
    }

    /**
      The user post-`findOneAndRemove` hook: nothing for a null document or
      an empty `uploadedTracks`; otherwise every listed track is removed on
      its own (with the Track hook deleting its audio file), and a failed
      removal or delete is ignored. Other users (their follower counts
      included) and the profile-image bucket are left as they are.
     */
    method UserPostRemove(doc: Option<User>, failingTrackRemovals: set<ObjectId>, failingBlobDeletes: set<ObjectId>)
      requires Valid()
      modifies this
      ensures Valid()
      ensures users == old(users) && userProfileImageFiles == old(userProfileImageFiles)
      ensures doc.None? ==> tracks == old(tracks) && trackBinaryFiles == old(trackBinaryFiles)
      ensures doc.Some? ==>
        var removed := CascadeTargets(doc.value.uploadedTracks, old(tracks), failingTrackRemovals);
        && tracks == old(tracks) - removed
        && trackBinaryFiles == old(trackBinaryFiles) - CascadeBlobs(removed, old(tracks), failingBlobDeletes)
    {
      if doc.None? || doc.value.uploadedTracks == [] {
        return;
      }
      var listed := doc.value.uploadedTracks;
      ghost var S, B := tracks, trackBinaryFiles;
      assert listed[..0] == [];
      for i := 0 to |listed|
        invariant Valid()
        invariant users == old(users) && userProfileImageFiles == old(userProfileImageFiles)
        invariant tracks == S - CascadeTargets(listed[..i], S, failingTrackRemovals)
        invariant trackBinaryFiles
               == B - CascadeBlobs(CascadeTargets(listed[..i], S, failingTrackRemovals), S, failingBlobDeletes)
      {
        RemoveListedTrack(listed, i, S, B, failingTrackRemovals, failingBlobDeletes);
      }
      assert listed[..|listed|] == listed;
    }

    /** One turn of the cascade's `forEach`: removes `listed[i]`, as `Track.findOneAndRemove` with its hook. */
    method RemoveListedTrack(listed: seq<ObjectId>, i: nat, ghost S: map<ObjectId, Track>, ghost B: map<ObjectId, seq<byte>>,
                             failingTrackRemovals: set<ObjectId>, failingBlobDeletes: set<ObjectId>)
      requires Valid() && i < |listed|
      requires tracks == S - CascadeTargets(listed[..i], S, failingTrackRemovals)
      requires trackBinaryFiles == B - CascadeBlobs(CascadeTargets(listed[..i], S, failingTrackRemovals), S, failingBlobDeletes)
      modifies this
      ensures Valid()
      ensures users == old(users) && userProfileImageFiles == old(userProfileImageFiles)
      ensures tracks == S - CascadeTargets(listed[..i + 1], S, failingTrackRemovals)
      ensures trackBinaryFiles
           == B - CascadeBlobs(CascadeTargets(listed[..i + 1], S, failingTrackRemovals), S, failingBlobDeletes)
    {
      var t := listed[i];
      ghost var before := CascadeTargets(listed[..i], S, failingTrackRemovals);
      ghost var after := CascadeTargets(listed[..i + 1], S, failingTrackRemovals);
      CascadeTargetsStep(listed, i, S, failingTrackRemovals);
      var removeOk := t !in failingTrackRemovals;
      var blobOk := !(t in tracks && tracks[t].trackBinaryId in failingBlobDeletes);
      ghost var present := t in tracks;
      RemoveTrack(t, removeOk, blobOk);
      if !removeOk {
        assert after == before;
      } else if present {
        assert t in S && t !in before && after == before + {t};
        CascadeBlobsAdd(before, t, S, failingBlobDeletes);
        assert old(tracks)[t] == S[t];
        assert tracks == S - after;
      } else {
        assert t in S ==> t in before;
        assert after == before;
        assert tracks == S - after;
      }
    }

    /**
      `User.findOneAndRemove({_id: id})` followed by the post-remove hook.
      Returns whether the removal write succeeded.
     */
    method RemoveUser(id: ObjectId, removeOk: bool, failingTrackRemovals: set<ObjectId>, failingBlobDeletes: set<ObjectId>)
      returns (ok: bool)
      requires Valid()
      modifies this
      ensures Valid()
      ensures ok == removeOk
      ensures userProfileImageFiles == old(userProfileImageFiles)
      ensures !removeOk ==> users == old(users) && tracks == old(tracks) && trackBinaryFiles == old(trackBinaryFiles)
      ensures removeOk ==> users == old(users) - {id}
      ensures removeOk && id !in old(users) ==> tracks == old(tracks) && trackBinaryFiles == old(trackBinaryFiles)
      ensures removeOk && id in old(users) ==>
        var removed := CascadeTargets(old(users)[id].uploadedTracks, old(tracks), failingTrackRemovals);
        && tracks == old(tracks) - removed
        && trackBinaryFiles == old(trackBinaryFiles) - CascadeBlobs(removed, old(tracks), failingBlobDeletes)
    {
      ok := removeOk;
      if !removeOk {
        return;
      }
      var doc := if id in users then Some(users[id]) else None;
      users := users - {id};
      UserPostRemove(doc, failingTrackRemovals, failingBlobDeletes);
    }
  }
}
