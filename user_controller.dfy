/** `registerUser`: checks the fields, looks for a user with the same email or
    username, uploads the avatar and the cover image, and creates the user.
    The upload service and bcrypt's hash are parameters. */
module UserController {
  import opened Common
  import opened JsStrings
  import opened ApiErrors
  import opened AsyncHandler
  import opened Store
  import opened UserModel

  /** `[fullname, email, username, password].some((field) => field?.trim() === '')`:
      a field that is given but blank. An absent field passes. */
  predicate AnyBlank(fullname: Option<string>, email: Option<string>, username: Option<string>, password: Option<string>)
  {
    GivenButBlank(fullname) || GivenButBlank(email) || GivenButBlank(username) || GivenButBlank(password)
  }

  /** `field?.trim() === ''`. */
  predicate GivenButBlank(field: Option<string>)
  {
    field.Some? && Trim(field.value) == ""
  }

  /** The filter `{ $or: [{ email }, { username }] }`. The schema's `trim` and
      `lowercase` setters also run on the filter's values; an absent value
      matches a user without that field. */
  function SameEmailOrUsername(email: Option<string>, username: Option<string>): Doc<User> -> bool
  {
    (d: Doc<User>) => d.data.email == MapOpt(email, KeyForm) || d.data.username == MapOpt(username, KeyForm)
  }

  /** The user `User.create` is given, before its setters and hooks. */
  function Candidate(fullname: Option<string>, email: Option<string>, username: Option<string>,
                     password: Option<string>, avatar: string, coverImage: Option<string>): User
  {
    NewUser(MapOpt(username, Lower), email, fullname, Some(avatar), coverImage, password)
  }

  /** Reading `username.toLowerCase()` when no username was given. */
  const NoUsername: JsError := TypeError("Cannot read properties of undefined (reading 'toLowerCase')")

  /** When the lookup finds nobody, the unique indexes refuse nothing: the
      lookup compares the same set values the indexes do. */
  lemma LookupCatchesEveryClash(users: seq<Doc<User>>, fullname: Option<string>, email: Option<string>,
                                username: Option<string>, password: Option<string>, avatar: string,
                                coverImage: Option<string>)
    requires FindFirst(users, SameEmailOrUsername(email, username)).None?
    ensures !ClashesWith(users, Candidate(fullname, email, username, password, avatar, coverImage))
  {
    var c := Candidate(fullname, email, username, password, avatar, coverImage);
    if username.Some? {
      KeyFormAfterLower(username.value);
    }
    assert c.username == MapOpt(username, KeyForm) && c.email == MapOpt(email, KeyForm);
    forall i | 0 <= i < |users|
      ensures !((c.username.Some? && users[i].data.username == c.username) ||
                (c.email.Some? && users[i].data.email == c.email))
    {
      assert !SameEmailOrUsername(email, username)(users[i]);
    }
  }

  /** The checks before the uploads pass: no field is blank and the lookup
      finds nobody with the same email or username. */
  predicate Admitted(users: seq<Doc<User>>, fullname: Option<string>, email: Option<string>,
                     username: Option<string>, password: Option<string>)
  {
    !AnyBlank(fullname, email, username, password) && FindFirst(users, SameEmailOrUsername(email, username)).None?
  }

  /** The files sent to the upload service: the avatar, then the cover image
      when one was given. */
  function UploadedFiles(avatarPath: string, coverPath: Option<string>): (r: seq<string>)
    ensures |r| >= 1 && r[0] == avatarPath
    ensures |r| == 2 <==> Truthy(coverPath)
    ensures |r| == 2 ==> r[1] == coverPath.value
  {
    [avatarPath] + (if Truthy(coverPath) then [coverPath.value] else [])
  }

  /** `registerUser`. `upload` is `uploadOnCloudinary` (the URL of the upload,
      or `None` when it fails); `uploaded` lists the files sent to it, in
      order. */
  method RegisterUser(db: Db, fullname: Option<string>, email: Option<string>, username: Option<string>,
                      password: Option<string>, avatarPath: Option<string>, coverPath: Option<string>,
                      upload: string -> Option<string>, hash: string -> string, now: Time)
    returns (r: Completion<Doc<PublicUser>>, uploaded: seq<string>)
    requires db.Valid()
    requires forall p :: hash(p) != ""
    modifies db
    ensures db.Valid()
    ensures r.Threw? ==> db.State() == old(db.State())
    ensures AnyBlank(fullname, email, username, password) ==>
      r == Threw(Api(400, "All fields are required")) && uploaded == []
    ensures !AnyBlank(fullname, email, username, password) &&
            FindFirst(old(db.users), SameEmailOrUsername(email, username)).Some? ==>
      r == Threw(Api(409, "User with username or email already exists")) && uploaded == []
    ensures Admitted(old(db.users), fullname, email, username, password) && !Truthy(avatarPath) ==>
      r == Threw(Api(400, "Avatar is required")) && uploaded == []
    ensures Admitted(old(db.users), fullname, email, username, password) && Truthy(avatarPath) ==>
      uploaded == UploadedFiles(avatarPath.value, coverPath)
    ensures Admitted(old(db.users), fullname, email, username, password) && Truthy(avatarPath) ==>
      var cover := if Truthy(coverPath) then upload(coverPath.value) else None;
      AfterUpload(old(db.State()), fullname, email, username, password, upload(avatarPath.value), cover,
                  hash, now, r, db.State())
  {
    uploaded := [];
    if AnyBlank(fullname, email, username, password) {
      r := Threw(Api(400, "All fields are required"));
      return;
    }
    if FindFirst(db.users, SameEmailOrUsername(email, username)).Some? {
      r := Threw(Api(409, "User with username or email already exists"));
      return;
    }
    if !Truthy(avatarPath) {
      r := Threw(Api(400, "Avatar is required"));
      return;
    }
    var avatar := upload(avatarPath.value);
    uploaded := [avatarPath.value];
    var cover: Option<string> := None;
    if Truthy(coverPath) {
      cover := upload(coverPath.value);
      uploaded := uploaded + [coverPath.value];
    }
    assert uploaded == UploadedFiles(avatarPath.value, coverPath);
    r := FinishRegistration(db, fullname, email, username, password, avatar, cover, hash, now);
  }

  /** How registration ends once the files are uploaded: a failed avatar
      upload is refused, a missing username throws, otherwise the candidate is
      validated and created. */
  ghost predicate AfterUpload(before: DbState, fullname: Option<string>, email: Option<string>,
                              username: Option<string>, password: Option<string>,
                              avatar: Option<string>, cover: Option<string>, hash: string -> string, now: Time,
                              r: Completion<Doc<PublicUser>>, after: DbState)
  {
    && (avatar.None? ==> r == Threw(Api(400, "Avatar file is required")))
    && (avatar.Some? && username.None? ==> r == Threw(NoUsername))
    && (r.Threw? ==> after == before)
    && (avatar.Some? && username.Some? ==>
          var c := Candidate(fullname, email, username, password, avatar.value, cover);
          && (!UserValid(c) ==> r == Threw(ValidationFailed("User")))
          && (UserValid(c) ==>
                var stored := Fresh(before.nextId, now, c.(password := Some(hash(c.password.value))));
                && r == Wrote(201, PublicDoc(stored))
                && after == before.(users := before.users + [stored], nextId := before.nextId + 1)))
  }

  /** The part of `registerUser` after the uploads. */
  method FinishRegistration(db: Db, fullname: Option<string>, email: Option<string>, username: Option<string>,
                            password: Option<string>, avatar: Option<string>, cover: Option<string>,
                            hash: string -> string, now: Time) returns (r: Completion<Doc<PublicUser>>)
    requires db.Valid() && FindFirst(db.users, SameEmailOrUsername(email, username)).None?
    requires forall p :: hash(p) != ""
    modifies db
    ensures db.Valid()
    ensures AfterUpload(old(db.State()), fullname, email, username, password, avatar, cover, hash, now, r, db.State())
  {
    if avatar.None? {
      r := Threw(Api(400, "Avatar file is required"));
      return;
    }
    if username.None? {
      r := Threw(NoUsername);
      return;
    }
    LookupCatchesEveryClash(db.users, fullname, email, username, password, avatar.value, cover);
    r := CreateCandidate(db, Candidate(fullname, email, username, password, avatar.value, cover), hash, now);
  }

  /** `User.create` of a user the lookup found no clash for: validation, the
      pre-save hash of the new password, then the insert. */
  method CreateCandidate(db: Db, c: User, hash: string -> string, now: Time) returns (r: Completion<Doc<PublicUser>>)
    requires db.Valid() && !ClashesWith(db.users, c)
    requires forall p :: hash(p) != ""
    modifies db
    ensures db.Valid()
    ensures !UserValid(c) ==> r == Threw(ValidationFailed("User")) && db.State() == old(db.State())
    ensures UserValid(c) ==>
      var stored := Fresh(old(db.nextId), now, c.(password := Some(hash(c.password.value))));
      && r == Wrote(201, PublicDoc(stored))
      && db.State() == old(db.State()).(users := old(db.users) + [stored], nextId := old(db.nextId) + 1)
  {
    if !UserValid(c) {
      r := Threw(ValidationFailed("User"));
      return;
    }
    var hashed := PreSave(c, true, hash).value;
    assert !ClashesWith(db.users, hashed) by {
      assert hashed.username == c.username && hashed.email == c.email;
    }
    var created := db.CreateUser(hashed, now);
    assert created.Done?;
    r := Wrote(201, PublicDoc(created.value));
  }
}
