/** The `User` schema: its fields and their setters, the required-field
    validators, the pre-save rule that hashes a modified password, the password
    check, and the claim sets of the two tokens. bcrypt's hash and compare are
    parameters of the functions that use them. */
module UserModel {
  import opened Common
  import opened JsStrings

  datatype User = User(
    username: Option<string>,
    email: Option<string>,
    fullname: Option<string>,
    avatar: Option<string>,
    coverImage: Option<string>,
    watchHistory: seq<Id>,
    password: Option<string>,
    refreshToken: Option<string>)

  /** The user as `select("-password -refreshToken")` returns it. */
  datatype PublicUser = PublicUser(
    username: Option<string>,
    email: Option<string>,
    fullname: Option<string>,
    avatar: Option<string>,
    coverImage: Option<string>,
    watchHistory: seq<Id>)

  function PublicView(u: User): PublicUser
  {
    PublicUser(u.username, u.email, u.fullname, u.avatar, u.coverImage, u.watchHistory)
  }

  /** A stored user as `select("-password -refreshToken")` returns it. */
  function PublicDoc(d: Doc<User>): (r: Doc<PublicUser>)
    ensures r.id == d.id && r.createdAt == d.createdAt && r.updatedAt == d.updatedAt
  {
    Doc(d.id, d.createdAt, d.updatedAt, PublicView(d.data))
  }

  /** The projection hides exactly `password` and `refreshToken`: two stored
      users look the same through it if and only if they differ in nothing
      else. */
  lemma PublicDocHidesOnlySecrets(d: Doc<User>, e: Doc<User>)
    ensures PublicDoc(d) == PublicDoc(e) <==>
      d.(data := d.data.(password := e.data.password, refreshToken := e.data.refreshToken)) == e
  {
    if PublicDoc(d) == PublicDoc(e) {
      assert PublicView(d.data) == PublicView(e.data);
    }
  }

  function MapOpt(f: Option<string>, g: string -> string): Option<string>
  {
    if f.None? then None else Some(g(f.value))
  }

  /** The `lowercase: true, trim: true` setters of `username` and `email`. */
  function KeyForm(s: string): string
  {
    Lower(Trim(s))
  }

  /** Assigning a field runs its setters: `username` and `email` are
      lowercased and trimmed, `fullname` is trimmed. */
  function ApplySetters(u: User): (r: User)
    ensures r.username == MapOpt(u.username, KeyForm)
    ensures r.email == MapOpt(u.email, KeyForm)
    ensures r.fullname == MapOpt(u.fullname, Trim)
    ensures r.(username := u.username, email := u.email, fullname := u.fullname) == u
  {
    u.(username := MapOpt(u.username, KeyForm),
       email := MapOpt(u.email, KeyForm),
       fullname := MapOpt(u.fullname, Trim))
  }

  /** The two setters commute, so the order Mongoose runs them in does not
      matter, and running them again changes nothing. */
  lemma KeyFormOrderFree(s: string)
    ensures KeyForm(s) == Trim(Lower(s))
    ensures KeyForm(KeyForm(s)) == KeyForm(s)
  {
    TrimLowerCommute(s);
    var t := Trim(s);
    TrimLowerCommute(t);
    TrimIdempotent(s);
    LowerIdempotent(t);
    calc {
      KeyForm(KeyForm(s));
      Lower(Trim(Lower(t)));
      Lower(Lower(Trim(t)));
      Lower(Lower(t));
      Lower(t);
    }
  }

  /** Lowercasing before the setters changes nothing: the setters lowercase
      anyway. */
  lemma KeyFormAfterLower(s: string)
    ensures KeyForm(Lower(s)) == KeyForm(s)
  {
    TrimLowerCommute(s);
    LowerIdempotent(Trim(s));
  }

  /** The required validators of username, email, fullname, avatar and
      password (a required string must be present and non-empty). */
  predicate UserValid(u: User)
  {
    && Truthy(u.username)
    && Truthy(u.email)
    && Truthy(u.fullname)
    && Truthy(u.avatar)
    && Truthy(u.password)
  }

  /** A new document: the given fields after their setters, an empty watch
      history and `refreshToken` null. */
  function NewUser(username: Option<string>, email: Option<string>, fullname: Option<string>,
                   avatar: Option<string>, coverImage: Option<string>, password: Option<string>): (u: User)
    ensures u.watchHistory == [] && u.refreshToken == None
    ensures u.password == password && u.avatar == avatar && u.coverImage == coverImage
    ensures u.username == MapOpt(username, KeyForm) && u.email == MapOpt(email, KeyForm)
    ensures u.fullname == MapOpt(fullname, Trim)
  {
    ApplySetters(User(username, email, fullname, avatar, coverImage, [], password, None))
  }

  /** The pre-save hook: the password is replaced by its hash when it was
      modified. `None`: the hash throws because there is no password. */
  function PreSave(u: User, passwordModified: bool, hash: string -> string): Option<User>
  {
    if !passwordModified then Some(u)
    else if u.password.None? then None
    else Some(u.(password := Some(hash(u.password.value))))
  }

  /** Saving rehashes exactly when the password was modified, and touches no
      other field. */
  lemma PreSaveRehashesOnlyWhenModified(u: User, passwordModified: bool, hash: string -> string)
    requires u.password.Some?
    ensures PreSave(u, passwordModified, hash).Some?
    ensures var r := PreSave(u, passwordModified, hash).value;
      && r.(password := u.password) == u
      && (r.password == u.password <==> !passwordModified || hash(u.password.value) == u.password.value)
      && (passwordModified ==> r.password == Some(hash(u.password.value)))
  {
  }

  /** `isPasswordCorrect`: bcrypt's compare of the candidate with the stored
      hash; `None` when there is no stored hash and compare throws. */
  function IsPasswordCorrect(u: User, candidate: string, compare: (string, string) -> bool): (r: Option<bool>)
    ensures r.Some? <==> u.password.Some?
    ensures r.Some? ==> r.value == compare(candidate, u.password.value)
  {
    if u.password.None? then None else Some(compare(candidate, u.password.value))
  }

  /** A password saved while modified is afterwards checked against its hash:
      `isPasswordCorrect` compares the candidate with `hash(password)`, and an
      unmodified save leaves the check as it was. */
  lemma SavedPasswordChecksAgainstHash(u: User, passwordModified: bool, hash: string -> string,
                                       candidate: string, compare: (string, string) -> bool)
    requires u.password.Some?
    ensures PreSave(u, passwordModified, hash).Some?
    ensures passwordModified ==>
      IsPasswordCorrect(PreSave(u, passwordModified, hash).value, candidate, compare) ==
      Some(compare(candidate, hash(u.password.value)))
    ensures !passwordModified ==>
      IsPasswordCorrect(PreSave(u, passwordModified, hash).value, candidate, compare) ==
      IsPasswordCorrect(u, candidate, compare)
  {
    PreSaveRehashesOnlyWhenModified(u, passwordModified, hash);
  }

  /** A claim value in a token payload. */
  datatype ClaimValue = IdClaim(id: Id) | TextClaim(text: string)

  type Claims = map<string, ClaimValue>

  /** A text field as a payload entry: JSON leaves undefined values out. */
  function TextEntry(key: string, f: Option<string>): Claims
  {
    if f.None? then map[] else map[key := TextClaim(f.value)]
  }

  /** The payload of `generateAccessToken`. */
  function AccessClaims(d: Doc<User>): Claims
  {
    map["id" := IdClaim(d.id)]
      + TextEntry("email", d.data.email)
      + TextEntry("username", d.data.username)
      + TextEntry("fullname", d.data.fullname)
  }

  /** The payload of `generateRefreshToken`. */
  function RefreshClaims(d: Doc<User>): Claims
  {
    map["id" := IdClaim(d.id)]
  }

  /** The access token carries the id under `id` and at most the email,
      username and full name besides (all three for a valid user); there is
      never an `_id` claim. */
  lemma AccessClaimKeys(d: Doc<User>)
    ensures AccessClaims(d).Keys <= {"id", "email", "username", "fullname"}
    ensures "id" in AccessClaims(d) && AccessClaims(d)["id"] == IdClaim(d.id)
    ensures UserValid(d.data) ==> AccessClaims(d).Keys == {"id", "email", "username", "fullname"}
    ensures "_id" !in AccessClaims(d)
  {
  }

  /** The refresh token carries nothing but the id. */
  lemma RefreshClaimKeys(d: Doc<User>)
    ensures RefreshClaims(d).Keys == {"id"}
    ensures "_id" !in RefreshClaims(d)
  {
  }
}
