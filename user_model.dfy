/**
  The `user` collection's schema (models/userModel.js): the document shape,
  the field constraints, the `toLower` setter on `email`, the defaults of the
  counters, and the save pipeline a user document goes through (validation,
  then the pre-save password hook, then the unique indexes on `email` and
  `userURL`, then the write).
 */
module UserModel {
  import opened Common
  import opened MongoArrays

  const CITIES: set<string> := {"Belfast", "Derry"}
  const USER_URL_MAX_LENGTH := 20
  const DISPLAY_NAME_MAX_LENGTH := 20
  const PASSWORD_MIN_LENGTH := 8
  const PASSWORD_MAX_LENGTH := 50

  /**
    A stored user. The relationship lists hold only the related ids
    (`{userId}`, `{trackID}`, and one key for liked tracks).
   */
  datatype User = User(
    email: string,
    password: string,
    userURL: string,
    displayName: string,
    city: string,
    numberOfFollowers: int,
    numberOfFollowees: int,
    numberOfTracksUploaded: int,
    profileImageGridFSId: Option<ObjectId>,
    likedTracks: seq<ObjectId>,
    followees: seq<ObjectId>,
    uploadedTracks: seq<ObjectId>)

  // ---------------------------------------------------------------------
  // The email setter
  // ---------------------------------------------------------------------

  function LowerChar(c: char): char
  {
    if 'A' <= c <= 'Z' then (c as int + 32) as char else c
  }

  /** `toLower`, the setter applied to every value assigned to `email`. */
  function ToLower(s: string): (r: string)
    ensures |r| == |s|
    ensures forall i :: 0 <= i < |s| ==> r[i] == LowerChar(s[i])
    ensures forall i :: 0 <= i < |r| ==> !('A' <= r[i] <= 'Z')
  {
    if s == [] then [] else [LowerChar(s[0])] + ToLower(s[1..])
  }

  /** Applying the setter twice stores the same email as applying it once. */
  lemma {:induction false} ToLowerIdempotent(s: string)
    ensures ToLower(ToLower(s)) == ToLower(s)
  {
    if s != [] {
      ToLowerIdempotent(s[1..]);
      assert ToLower(s)[1..] == ToLower(s[1..]);
    }
  }

  // ---------------------------------------------------------------------
  // New documents
  // ---------------------------------------------------------------------

  /**
    `new User({email, password, userURL, displayName, city})`: the setter
    lower-cases the email, the three counters take their default 0, and the
    relationship lists start empty.
   */
  function NewUser(email: string, password: string, userURL: string, displayName: string, city: string): (u: User)
    ensures u.email == ToLower(email)
    ensures u.password == password && u.userURL == userURL && u.displayName == displayName && u.city == city
    ensures u.numberOfFollowers == 0 && u.numberOfFollowees == 0 && u.numberOfTracksUploaded == 0
    ensures u.likedTracks == [] && u.followees == [] && u.uploadedTracks == []
    ensures u.profileImageGridFSId == None
  {
    User(ToLower(email), password, userURL, displayName, city, 0, 0, 0, None, [], [], [])
  }

  // ---------------------------------------------------------------------
  // Errors a save can report
  // ---------------------------------------------------------------------

  /**
    The error object a failed save hands to its callback. A save fills
    `errors` with validator error objects only; the error report may
    overwrite it with plain texts.
   */
  datatype MongooseError = MongooseError(name: string, message: string, errors: map<string, ErrorEntry>)

  const PASSWORD_TOO_SHORT := "Password constraints error. Password is under the minimum length of 8 characters"
  const PASSWORD_TOO_LONG := "Password constraints error. Password is over the maximum length of 50 characters"

  /** `err.toString()`: the error's name, a colon and its message. */
  function ErrString(err: MongooseError): string
  {
    err.name + ": " + err.message
  }

  function RequiredError(path: string): ValidatorError
  {
    ValidatorError(Required, "Path `" + path + "` is required.")
  }

  function MaxLengthError(path: string, value: string, max: string): ValidatorError
  {
    ValidatorError(MaxLength, "Path `" + path + "` (`" + value + "`) is longer than the maximum allowed length (" + max + ").")
  }

  // ---------------------------------------------------------------------
  // Field constraints
  // ---------------------------------------------------------------------

  /**
    The first failing validator of each path, in schema order; there is none
    exactly when the document meets the schema's field constraints.
   */
  function PathErrors(u: User, isEmail: string -> bool): (r: seq<(string, ValidatorError)>)
    ensures r == [] <==> UserFieldsValid(u, isEmail)
  {
    (if u.email == "" then [("email", RequiredError("email"))]
     else if !isEmail(u.email) then [("email", ValidatorError(UserDefined, "Enter a valid email address."))]
     else [])
    + (if u.password == "" then [("password", RequiredError("password"))] else [])
    + (if u.userURL == "" then [("userURL", RequiredError("userURL"))]
       else if |u.userURL| > USER_URL_MAX_LENGTH then [("userURL", MaxLengthError("userURL", u.userURL, "20"))]
       else [])
    + (if u.displayName == "" then [("displayName", RequiredError("displayName"))]
       else if |u.displayName| > DISPLAY_NAME_MAX_LENGTH then [("displayName", MaxLengthError("displayName", u.displayName, "20"))]
       else [])
    + (if u.city == "" then [("city", RequiredError("city"))]
       else if u.city !in CITIES then [("city", ValidatorError(EnumMismatch, "City validation failed"))]
       else [])
  }

  /** The schema's field constraints, stated directly. */
  predicate UserFieldsValid(u: User, isEmail: string -> bool)
  {
    && u.email != "" && isEmail(u.email)
    && u.password != ""
    && 0 < |u.userURL| <= USER_URL_MAX_LENGTH
    && 0 < |u.displayName| <= DISPLAY_NAME_MAX_LENGTH
    && u.city in CITIES
  }

  function ErrorMap(errs: seq<(string, ValidatorError)>): (m: map<string, ErrorEntry>)
    ensures m.Keys == set i | 0 <= i < |errs| :: errs[i].0
    ensures forall p :: p in m ==> m[p].ErrorObject?
  {
    if errs == [] then map[]
    else
      var rest := ErrorMap(errs[1..]);
      assert forall i :: 0 < i < |errs| ==> errs[i].0 == errs[1..][i - 1].0;
      assert forall i :: 0 <= i < |errs[1..]| ==> errs[1..][i].0 == errs[i + 1].0;
      rest[errs[0].0 := ErrorObject(errs[0].1)]
  }

  function JoinErrors(errs: seq<(string, ValidatorError)>): string
  {
    if errs == [] then ""
    else if |errs| == 1 then errs[0].0 + ": " + errs[0].1.message
    else errs[0].0 + ": " + errs[0].1.message + ", " + JoinErrors(errs[1..])
  }

  /** The `ValidationError` a save reports when some path fails. */
  function ValidationFailure(errs: seq<(string, ValidatorError)>): MongooseError
  {
    MongooseError("ValidationError", "user validation failed: " + JoinErrors(errs), ErrorMap(errs))
  }

  // ---------------------------------------------------------------------
  // The pre-save hook
  // ---------------------------------------------------------------------

  /**
    The pre-save hook on the password. An unmodified password passes through;
    otherwise a length under 8, then a length over 50, is an error, and only
    a password within bounds is replaced by its hash. `hash` stands for
    bcrypt with a generated salt; `hashOk` says whether salt generation and
    hashing succeed.
   */
  function PreSavePassword(modified: bool, password: string, hash: string -> string, hashOk: bool): (r: Result<string, MongooseError>)
    ensures !modified ==> r == Ok(password)
    ensures modified && |password| < PASSWORD_MIN_LENGTH ==> r == Err(MongooseError("Error", PASSWORD_TOO_SHORT, map[]))
    ensures modified && |password| > PASSWORD_MAX_LENGTH ==> r == Err(MongooseError("Error", PASSWORD_TOO_LONG, map[]))
    ensures modified ==> (r.Ok? <==> PASSWORD_MIN_LENGTH <= |password| <= PASSWORD_MAX_LENGTH && hashOk)
    ensures modified && r.Ok? ==> r.value == hash(password)
  {
    if !modified then Ok(password)
    else if |password| < PASSWORD_MIN_LENGTH then Err(MongooseError("Error", PASSWORD_TOO_SHORT, map[]))
    else if |password| > PASSWORD_MAX_LENGTH then Err(MongooseError("Error", PASSWORD_TOO_LONG, map[]))
    else if !hashOk then Err(MongooseError("Error", "bcrypt error", map[]))
    else Ok(hash(password))
  }

  // ---------------------------------------------------------------------
  // Unique indexes and the whole save
  // ---------------------------------------------------------------------

  predicate EmailTaken(users: map<ObjectId, User>, id: ObjectId, email: string)
  {
    exists k :: k in users && k != id && users[k].email == email
  }

  predicate UserURLTaken(users: map<ObjectId, User>, id: ObjectId, userURL: string)
  {
    exists k :: k in users && k != id && users[k].userURL == userURL
  }

  /** The unique indexes on `email` and `userURL` hold. */
  ghost predicate UniqueUserKeys(users: map<ObjectId, User>)
  {
    forall a, b :: a in users && b in users && a != b ==>
      users[a].email != users[b].email && users[a].userURL != users[b].userURL
  }

  /**
    The counters a user document keeps beside its own lists, and the
    duplicate-free relationship lists that the handlers' checks maintain.
   */
  ghost predicate UserInSync(u: User)
  {
    && NoDup(u.followees)
    && u.numberOfFollowees == |u.followees|
    && NoDup(u.likedTracks)
    && u.numberOfTracksUploaded == |u.uploadedTracks|
  }

  /**
    `doc.save()` for the user stored (or to be stored) under `id`:
    validation of every path, then the pre-save password hook, then the
    unique indexes (`email` first), then the write, whose success is
    `writeOk`. The result is the document as stored.
   */
  function SaveUser(users: map<ObjectId, User>, id: ObjectId, doc: User, passwordModified: bool,
                    isEmail: string -> bool, hash: string -> string, hashOk: bool, writeOk: bool): (r: Result<User, MongooseError>)
    ensures r.Ok? <==>
      && UserFieldsValid(doc, isEmail)
      && PreSavePassword(passwordModified, doc.password, hash, hashOk).Ok?
      && !EmailTaken(users, id, doc.email) && !UserURLTaken(users, id, doc.userURL)
      && writeOk
    ensures !UserFieldsValid(doc, isEmail) ==> r.Err? && r.error.name == "ValidationError"
    ensures r.Ok? ==> r.value == doc.(password := if passwordModified then hash(doc.password) else doc.password)
  {
    var errs := PathErrors(doc, isEmail);
    if errs != [] then Err(ValidationFailure(errs))
    else match PreSavePassword(passwordModified, doc.password, hash, hashOk)
      case Err(e) => Err(e)
      case Ok(stored) =>
        if EmailTaken(users, id, doc.email) then
          Err(MongooseError("MongoError", "E11000 duplicate key error index: email_1", map[]))
        else if UserURLTaken(users, id, doc.userURL) then
          Err(MongooseError("MongoError", "E11000 duplicate key error index: userURL_1", map[]))
        else if !writeOk then
          Err(MongooseError("MongoError", "write failed", map[]))
        else
          Ok(doc.(password := stored))
  }

  /** A successful save keeps the unique indexes on `email` and `userURL`. */
  lemma SaveKeepsUniqueKeys(users: map<ObjectId, User>, id: ObjectId, doc: User, passwordModified: bool,
                            isEmail: string -> bool, hash: string -> string, hashOk: bool, writeOk: bool)
    requires UniqueUserKeys(users)
    requires SaveUser(users, id, doc, passwordModified, isEmail, hash, hashOk, writeOk).Ok?
    ensures UniqueUserKeys(users[id := SaveUser(users, id, doc, passwordModified, isEmail, hash, hashOk, writeOk).value])
  {
    var saved := SaveUser(users, id, doc, passwordModified, isEmail, hash, hashOk, writeOk).value;
    var m := users[id := saved];
    forall a, b | a in m && b in m && a != b
      ensures m[a].email != m[b].email && m[a].userURL != m[b].userURL
    {
      if a == id {
        assert !EmailTaken(users, id, doc.email) && !UserURLTaken(users, id, doc.userURL);
        assert b in users && b != id;
      } else if b == id {
        assert !EmailTaken(users, id, doc.email) && !UserURLTaken(users, id, doc.userURL);
        assert a in users && a != id;
      }
    }
  }
}
