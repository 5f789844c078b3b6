/** The database as the handlers see it: one collection per model, each in
    natural (insertion) order, and ids handed out from one counter so that no
    two documents share one. Creating or saving a document of a model whose
    schema is part of this model first runs that schema's validators; the
    `users` collection also keeps its unique indexes on `username` and `email`. */
module Store {
  import opened Common
  import opened ApiErrors
  import opened UserModel
  import opened VideoModel
  import opened LikeModel
  import opened SubscriptionModel
  import opened TweetModel

  /** A playlist as the handlers build it; its schema file is not part of
      this model, so it is stored as given. */
  datatype Playlist = Playlist(name: Option<string>, description: Option<string>, owner: Option<Id>, videos: seq<Id>)

  /** A comment as the handlers build it; its schema file is not part of
      this model, so it is stored as given. */
  datatype Comment = Comment(content: Option<string>, owner: Option<Id>, video: Option<Id>)

  /** Whether a controller module has the `Video` model in scope: when it
      does not, naming `Video` throws a ReferenceError. */
  datatype Binding = Unbound | Bound

  /** A snapshot of every collection and of the id counter. */
  datatype DbState = DbState(
    users: seq<Doc<User>>,
    videos: seq<Doc<Video>>,
    playlists: seq<Doc<Playlist>>,
    likes: seq<Doc<Like>>,
    subscriptions: seq<Doc<Subscription>>,
    comments: seq<Doc<Comment>>,
    tweets: seq<Doc<Tweet>>,
    nextId: Id)

  ghost predicate ValidState(st: DbState)
  {
    && WellKeyed(st.users, st.nextId)
    && WellKeyed(st.videos, st.nextId)
    && WellKeyed(st.playlists, st.nextId)
    && WellKeyed(st.likes, st.nextId)
    && WellKeyed(st.subscriptions, st.nextId)
    && WellKeyed(st.comments, st.nextId)
    && WellKeyed(st.tweets, st.nextId)
  }

  /** A document created now with the next id. */
  function Fresh<T>(id: Id, now: Time, data: T): (d: Doc<T>)
    ensures d.id == id && d.createdAt == now && d.updatedAt == now && d.data == data
  {
    Doc(id, now, now, data)
  }

  /** A saved document: new data, `updatedAt` moved to now, the rest kept. */
  function Saved<T>(d: Doc<T>, now: Time, data: T): (r: Doc<T>)
    ensures r.id == d.id && r.createdAt == d.createdAt && r.updatedAt == now && r.data == data
  {
    d.(updatedAt := now, data := data)
  }

  /** Mongoose's timestamps: a document is created with `createdAt` equal to
      `updatedAt`; any run of saves at times that do not go back keeps its id
      and `createdAt`, ends with `updatedAt` at the last save, and never puts
      `updatedAt` before `createdAt`. */
  lemma SavesKeepIdentity<T>(id: Id, created: Time, x: T, saves: seq<(Time, T)>)
    requires forall i :: 0 <= i < |saves| ==> created <= saves[i].0
    requires forall i, j :: 0 <= i < j < |saves| ==> saves[i].0 <= saves[j].0
    ensures var d := SaveAll(Fresh(id, created, x), saves);
      && d.id == id && d.createdAt == created && d.createdAt <= d.updatedAt
      && (saves == [] ==> d.updatedAt == created && d.data == x)
      && (saves != [] ==> d.updatedAt == saves[|saves| - 1].0 && d.data == saves[|saves| - 1].1)
  {
    SaveAllKeeps(Fresh(id, created, x), saves);
  }

  /** The document after saving each `(time, data)` pair in turn. */
  function SaveAll<T>(d: Doc<T>, saves: seq<(Time, T)>): Doc<T>
    decreases |saves|
  {
    if saves == [] then d else SaveAll(Saved(d, saves[0].0, saves[0].1), saves[1..])
  }

  lemma {:induction false} SaveAllKeeps<T>(d: Doc<T>, saves: seq<(Time, T)>)
    requires d.createdAt <= d.updatedAt
    requires forall i :: 0 <= i < |saves| ==> d.updatedAt <= saves[i].0
    requires forall i, j :: 0 <= i < j < |saves| ==> saves[i].0 <= saves[j].0
    ensures var r := SaveAll(d, saves);
      && r.id == d.id && r.createdAt == d.createdAt && r.createdAt <= r.updatedAt
      && (saves == [] ==> r == d)
      && (saves != [] ==> r.updatedAt == saves[|saves| - 1].0 && r.data == saves[|saves| - 1].1)
    decreases |saves|
  {
    if saves != [] {
      var d' := Saved(d, saves[0].0, saves[0].1);
      var rest := saves[1..];
      assert forall i :: 0 <= i < |rest| ==> rest[i] == saves[i + 1];
      SaveAllKeeps(d', rest);
      if rest != [] {
        assert rest[|rest| - 1] == saves[|saves| - 1];
      }
    }
  }

  /** A user that the unique indexes on `username` and `email` refuse. */
  predicate ClashesWith(users: seq<Doc<User>>, u: User)
  {
    exists i :: 0 <= i < |users| &&
      ((u.username.Some? && users[i].data.username == u.username) ||
       (u.email.Some? && users[i].data.email == u.email))
  }

  class Db {
    var users: seq<Doc<User>>
    var videos: seq<Doc<Video>>
    var playlists: seq<Doc<Playlist>>
    var likes: seq<Doc<Like>>
    var subscriptions: seq<Doc<Subscription>>
    var comments: seq<Doc<Comment>>
    var tweets: seq<Doc<Tweet>>
    var nextId: Id

    ghost function State(): DbState
      reads this
    {
      DbState(users, videos, playlists, likes, subscriptions, comments, tweets, nextId)
    }

    ghost predicate Valid()
      reads this
    {
      ValidState(State())
    }

    /** An empty database. */
    constructor()
      ensures Valid()
      ensures State() == DbState([], [], [], [], [], [], [], 0)
    {
      users, videos, playlists, likes := [], [], [], [];
      subscriptions, comments, tweets := [], [], [];
      nextId := 0;
    }

    method CreatePlaylist(p: Playlist, now: Time) returns (d: Doc<Playlist>)
      requires Valid()
      modifies this
      ensures Valid()
      ensures d == Fresh(old(nextId), now, p)
      ensures State() == old(State()).(playlists := old(playlists) + [d], nextId := old(nextId) + 1)
    {
      d := Fresh(nextId, now, p);
      playlists := playlists + [d];
      nextId := nextId + 1;
    }

    method CreateComment(c: Comment, now: Time) returns (d: Doc<Comment>)
      requires Valid()
      modifies this
      ensures Valid()
      ensures d == Fresh(old(nextId), now, c)
      ensures State() == old(State()).(comments := old(comments) + [d], nextId := old(nextId) + 1)
    {
      d := Fresh(nextId, now, c);
      comments := comments + [d];
      nextId := nextId + 1;
    }

    /** `Video.create`: validation first; `None` when it fails. */
    method CreateVideo(v: Video, now: Time) returns (d: Option<Doc<Video>>)
      requires Valid()
      modifies this
      ensures Valid()
      ensures VideoValid(v) ==> (d == Some(Fresh(old(nextId), now, v)) &&
        State() == old(State()).(videos := old(videos) + [d.value], nextId := old(nextId) + 1))
      ensures !VideoValid(v) ==> d == None && State() == old(State())
    {
      if VideoValid(v) {
        var doc := Fresh(nextId, now, v);
        videos := videos + [doc];
        nextId := nextId + 1;
        d := Some(doc);
      } else {
        d := None;
      }
    }

    /** `Like.create`: validation first; `None` when it fails. */
    method CreateLike(l: Like, now: Time) returns (d: Option<Doc<Like>>)
      requires Valid()
      modifies this
      ensures Valid()
      ensures LikeValid(l) ==> (d == Some(Fresh(old(nextId), now, l)) &&
        State() == old(State()).(likes := old(likes) + [d.value], nextId := old(nextId) + 1))
      ensures !LikeValid(l) ==> d == None && State() == old(State())
    {
      if LikeValid(l) {
        var doc := Fresh(nextId, now, l);
        likes := likes + [doc];
        nextId := nextId + 1;
        d := Some(doc);
      } else {
        d := None;
      }
    }

    /** `new Subscription(..).save()`: validation first; `None` when it fails. */
    method CreateSubscription(s: Subscription, now: Time) returns (d: Option<Doc<Subscription>>)
      requires Valid()
      modifies this
      ensures Valid()
      ensures SubscriptionValid(s) ==> (d == Some(Fresh(old(nextId), now, s)) &&
        State() == old(State()).(subscriptions := old(subscriptions) + [d.value], nextId := old(nextId) + 1))
      ensures !SubscriptionValid(s) ==> d == None && State() == old(State())
    {
      if SubscriptionValid(s) {
        var doc := Fresh(nextId, now, s);
        subscriptions := subscriptions + [doc];
        nextId := nextId + 1;
        d := Some(doc);
      } else {
        d := None;
      }
    }

    /** `new Tweet(..).save()`: validation first; `None` when it fails. */
    method CreateTweet(t: Tweet, now: Time) returns (d: Option<Doc<Tweet>>)
      requires Valid()
      modifies this
      ensures Valid()
      ensures TweetValid(t) ==> (d == Some(Fresh(old(nextId), now, t)) &&
        State() == old(State()).(tweets := old(tweets) + [d.value], nextId := old(nextId) + 1))
      ensures !TweetValid(t) ==> d == None && State() == old(State())
    {
      if TweetValid(t) {
        var doc := Fresh(nextId, now, t);
        tweets := tweets + [doc];
        nextId := nextId + 1;
        d := Some(doc);
      } else {
        d := None;
      }
    }

    /** `User.create`: validation, then the unique indexes, then the insert. */
    method CreateUser(u: User, now: Time) returns (r: Result<Doc<User>>)
      requires Valid()
      modifies this
      ensures Valid()
      ensures !UserValid(u) ==> r == Failed(ValidationFailed("User")) && State() == old(State())
      ensures UserValid(u) && ClashesWith(old(users), u) ==>
        r == Failed(MongoError(DuplicateKey, DuplicateKeyMessage)) && State() == old(State())
      ensures UserValid(u) && !ClashesWith(old(users), u) ==> (r == Done(Fresh(old(nextId), now, u)) &&
        State() == old(State()).(users := old(users) + [r.value], nextId := old(nextId) + 1))
    {
      if !UserValid(u) {
        r := Failed(ValidationFailed("User"));
      } else if ClashesWith(users, u) {
        r := Failed(MongoError(DuplicateKey, DuplicateKeyMessage));
      } else {
        var doc := Fresh(nextId, now, u);
        users := users + [doc];
        nextId := nextId + 1;
        r := Done(doc);
      }
    }
  }

  const DuplicateKeyMessage: string := "E11000 duplicate key error"

  /** The outcome of a write that can fail. */
  datatype Result<T> = Done(value: T) | Failed(error: JsError)
}
