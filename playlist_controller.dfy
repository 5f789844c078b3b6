/** The playlist handlers. The module imports no `Video` model, so the one
    handler that names it, `addVideoToPlaylist`, takes the binding as a
    parameter: `Unbound` is the module as written. */
module PlaylistController {
  import opened Common
  import opened ApiErrors
  import opened AsyncHandler
  import opened Ordering
  import opened Store

  /** `Video` as the playlist controller sees it. */
  const VideoInScope: Binding := Unbound

  /** The filter `{ owner }`. */
  function OwnedBy(owner: Option<Id>): Doc<Playlist> -> bool
  {
    (d: Doc<Playlist>) => d.data.owner == owner
  }

  /** The filter `{ name, owner }`. */
  function NamedBy(name: Option<string>, owner: Id): Doc<Playlist> -> bool
  {
    (d: Doc<Playlist>) => d.data.name == name && d.data.owner == Some(owner)
  }

  /** No owner has two playlists of the same name. */
  predicate NamesUniquePerOwner(ps: seq<Doc<Playlist>>)
  {
    forall i, j :: 0 <= i < j < |ps| && ps[i].data.owner.Some? ==>
      !NamedBy(ps[i].data.name, ps[i].data.owner.value)(ps[j])
  }

  // ---------------------------------------------------------------------
  // The `videos` list

  /** No video occurs twice. */
  predicate NoDuplicates(vs: seq<Id>)
  {
    forall i, j :: 0 <= i < j < |vs| ==> vs[i] != vs[j]
  }

  /** `vs.indexOf(v)`: the first position of `v`, or -1. */
  function IndexOf(vs: seq<Id>, v: Id): (k: int)
    ensures -1 <= k < |vs|
    ensures k == -1 <==> v !in vs
    ensures k >= 0 ==> vs[k] == v && v !in vs[..k]
  {
    if |vs| == 0 then -1
    else if vs[0] == v then 0
    else
      var k := IndexOf(vs[1..], v);
      assert k >= 0 ==> vs[..k + 1] == [vs[0]] + vs[1..][..k];
      if k == -1 then -1 else k + 1
  }

  /** `vs.splice(vs.indexOf(v), 1)` for a `v` that occurs. */
  function RemoveFirst(vs: seq<Id>, v: Id): seq<Id>
    requires v in vs
  {
    RemoveAt(vs, IndexOf(vs, v))
  }

  /** Removing the first occurrence drops exactly that one element: the
      length falls by one, the rest keep their order, and with no
      duplicates `v` is gone afterwards. */
  lemma RemoveFirstRemovesOne(vs: seq<Id>, v: Id)
    requires v in vs
    ensures var k := IndexOf(vs, v);
      && RemoveFirst(vs, v) == vs[..k] + vs[k + 1..]
      && |RemoveFirst(vs, v)| == |vs| - 1
      && multiset(RemoveFirst(vs, v)) + multiset{v} == multiset(vs)
      && v !in vs[..k]
    ensures NoDuplicates(vs) ==> v !in RemoveFirst(vs, v) && NoDuplicates(RemoveFirst(vs, v))
  {
    var k := IndexOf(vs, v);
    var r := RemoveFirst(vs, v);
    if NoDuplicates(vs) {
      forall j | 0 <= j < |r| ensures r[j] != v {
        if j < k {
          assert r[j] == vs[j];
        } else {
          assert r[j] == vs[j + 1];
        }
      }
      forall a, b | 0 <= a < b < |r| ensures r[a] != r[b] {
        var a' := if a < k then a else a + 1;
        var b' := if b < k then b else b + 1;
        assert r[a] == vs[a'] && r[b] == vs[b'];
      }
    }
  }

  /** Appending a video that is not there keeps the list duplicate-free. */
  lemma AppendKeepsNoDuplicates(vs: seq<Id>, v: Id)
    requires NoDuplicates(vs) && v !in vs
    ensures NoDuplicates(vs + [v])
  {
    var r := vs + [v];
    forall a, b | 0 <= a < b < |r| ensures r[a] != r[b] {
      assert r[a] == vs[a];
    }
  }

  /** Adding a video and then removing it gives the list back. */
  lemma AddThenRemoveRestores(vs: seq<Id>, v: Id)
    requires v !in vs
    ensures v in vs + [v]
    ensures RemoveFirst(vs + [v], v) == vs
  {
    var r := vs + [v];
    assert r[|vs|] == v;
    assert forall j :: 0 <= j < |vs| ==> r[j] != v;
    assert IndexOf(r, v) == |vs|;
  }

  // ---------------------------------------------------------------------
  // `updatePlaylist`'s `$set`

  /** `{ $set: { ...(name && { name }), ...(description && { description }) } }`. */
  function Patch(p: Playlist, name: Option<string>, description: Option<string>): Playlist
  {
    p.(name := if Truthy(name) then name else p.name,
       description := if Truthy(description) then description else p.description)
  }

  /** The update overwrites only the truthy fields, keeps owner and videos,
      and applying it twice is the same as once. */
  lemma PatchOverwritesOnlyTruthy(p: Playlist, name: Option<string>, description: Option<string>)
    ensures var r := Patch(p, name, description);
      && r.owner == p.owner && r.videos == p.videos
      && (Truthy(name) ==> r.name == name) && (!Truthy(name) ==> r.name == p.name)
      && (Truthy(description) ==> r.description == description)
      && (!Truthy(description) ==> r.description == p.description)
    ensures Patch(Patch(p, name, description), name, description) == Patch(p, name, description)
  {
  }

  // ---------------------------------------------------------------------
  // Handlers

  /** `createPlaylist`. */
  method CreatePlaylist(db: Db, me: Id, name: Option<string>, description: Option<string>, now: Time)
    returns (r: Completion<Doc<Playlist>>)
    requires db.Valid()
    modifies db
    ensures db.Valid()
    ensures !Truthy(name) ==>
      r == Threw(Api(400, "Playlist name is required")) && db.State() == old(db.State())
    ensures Truthy(name) && FindFirst(old(db.playlists), NamedBy(name, me)).Some? ==>
      r == Threw(Api(409, "Playlist with this name already exists")) && db.State() == old(db.State())
    ensures Truthy(name) && FindFirst(old(db.playlists), NamedBy(name, me)).None? ==>
      && r == Wrote(201, Fresh(old(db.nextId), now, Playlist(name, description, Some(me), [])))
      && db.State() == old(db.State()).(playlists := old(db.playlists) + [r.data], nextId := old(db.nextId) + 1)
    ensures NamesUniquePerOwner(old(db.playlists)) ==> NamesUniquePerOwner(db.playlists)
  {
    if !Truthy(name) {
      r := Threw(Api(400, "Playlist name is required"));
      return;
    }
    if FindFirst(db.playlists, NamedBy(name, me)).Some? {
      r := Threw(Api(409, "Playlist with this name already exists"));
      return;
    }
    ghost var before := db.playlists;
    var d := db.CreatePlaylist(Playlist(name, description, Some(me), []), now);
    assert db.playlists == before + [d];
    assert forall i :: 0 <= i < |before| ==> !NamedBy(name, me)(before[i]);
    r := Wrote(201, d);
  }

  /** `getUserPlaylists`. */
  function GetUserPlaylists(playlists: seq<Doc<Playlist>>, userId: Option<Id>): (r: Completion<seq<Doc<Playlist>>>)
    ensures userId.None? ==> r == Threw(Api(400, "User ID is required"))
    ensures userId.Some? ==> r.Wrote? && r.status == 200
    ensures r.Wrote? ==>
      && NewestFirstOrder(r.data)
      && multiset(r.data) == multiset(Select(playlists, OwnedBy(userId)))
      && (forall i :: 0 <= i < |r.data| ==> r.data[i] in playlists && r.data[i].data.owner == userId)
      && (forall i :: 0 <= i < |playlists| && playlists[i].data.owner == userId ==> playlists[i] in r.data)
  {
    if userId.None? then Threw(Api(400, "User ID is required"))
    else Wrote(200, FindNewestFirst(playlists, OwnedBy(userId)))
  }

  /** `getPlaylistById` (without the population of `videos` and `owner`). */
  function GetPlaylistById(playlists: seq<Doc<Playlist>>, playlistId: Option<Id>): (r: Completion<Doc<Playlist>>)
    ensures playlistId.None? ==> r == Threw(Api(400, "Playlist ID is required"))
    ensures playlistId.Some? && !HasId(playlists, playlistId.value) ==> r == Threw(Api(404, "Playlist not found"))
    ensures r.Wrote? ==> r.status == 200 && r.data in playlists && Some(r.data.id) == playlistId
    ensures playlistId.Some? && HasId(playlists, playlistId.value) ==> r.Wrote?
  {
    if playlistId.None? then Threw(Api(400, "Playlist ID is required"))
    else match FindById(playlists, playlistId.value)
      case None => Threw(Api(404, "Playlist not found"))
      case Some(i) => Wrote(200, playlists[i])
  }

  /** `addVideoToPlaylist`; `video` says whether `Video` is in scope. */
  method AddVideoToPlaylist(db: Db, playlistId: Option<Id>, videoId: Option<Id>, video: Binding, now: Time)
    returns (r: Completion<Doc<Playlist>>)
    requires db.Valid()
    modifies db
    ensures db.Valid()
    ensures r.Threw? ==> db.State() == old(db.State())
    ensures playlistId.None? || videoId.None? ==>
      r == Threw(Api(400, "Playlist ID and Video ID are required"))
    ensures playlistId.Some? && videoId.Some? && !HasId(old(db.playlists), playlistId.value) ==>
      r == Threw(Api(404, "Playlist not found"))
    ensures playlistId.Some? && videoId.Some? && HasId(old(db.playlists), playlistId.value) ==>
      && (video.Unbound? ==> r == Threw(ReferenceError("Video")))
      && (video.Bound? && !HasId(old(db.videos), videoId.value) ==> r == Threw(Api(404, "Video not found")))
    ensures playlistId.Some? && videoId.Some? && video.Bound? && HasId(old(db.videos), videoId.value) ==>
      FindById(old(db.playlists), playlistId.value).Some? ==>
      var i := FindById(old(db.playlists), playlistId.value).value;
      var p := old(db.playlists)[i];
      && (videoId.value in p.data.videos ==> r == Threw(Api(409, "Video already exists in the playlist")))
      && (videoId.value !in p.data.videos ==>
            && r == Wrote(200, Saved(p, now, p.data.(videos := p.data.videos + [videoId.value])))
            && db.State() == old(db.State()).(playlists := old(db.playlists)[i := r.data]))
  {
    if playlistId.None? || videoId.None? {
      r := Threw(Api(400, "Playlist ID and Video ID are required"));
      return;
    }
    FindByIdPresent(db.playlists, playlistId.value);
    FindByIdPresent(db.videos, videoId.value);
    var found := FindById(db.playlists, playlistId.value);
    if found.None? {
      r := Threw(Api(404, "Playlist not found"));
      return;
    }
    if video.Unbound? {
      r := Threw(ReferenceError("Video"));
      return;
    }
    if FindById(db.videos, videoId.value).None? {
      r := Threw(Api(404, "Video not found"));
      return;
    }
    var i := found.value;
    var p := db.playlists[i];
    if videoId.value in p.data.videos {
      r := Threw(Api(409, "Video already exists in the playlist"));
      return;
    }
    var d := Saved(p, now, p.data.(videos := p.data.videos + [videoId.value]));
    WellKeyedReplace(db.playlists, db.nextId, i, d);
    db.playlists := db.playlists[i := d];
    r := Wrote(200, d);
  }

  /** `removeVideoFromPlaylist`. */
  method RemoveVideoFromPlaylist(db: Db, playlistId: Option<Id>, videoId: Option<Id>, now: Time)
    returns (r: Completion<Doc<Playlist>>)
    requires db.Valid()
    modifies db
    ensures db.Valid()
    ensures r.Threw? ==> db.State() == old(db.State())
    ensures playlistId.None? || videoId.None? ==>
      r == Threw(Api(400, "Playlist ID and Video ID are required"))
    ensures playlistId.Some? && videoId.Some? && !HasId(old(db.playlists), playlistId.value) ==>
      r == Threw(Api(404, "Playlist not found"))
    ensures playlistId.Some? && videoId.Some? && FindById(old(db.playlists), playlistId.value).Some? ==>
      var i := FindById(old(db.playlists), playlistId.value).value;
      var p := old(db.playlists)[i];
      && (videoId.value !in p.data.videos ==> r == Threw(Api(404, "Video not found in playlist")))
      && (videoId.value in p.data.videos ==>
            && r == Wrote(200, Saved(p, now, p.data.(videos := RemoveFirst(p.data.videos, videoId.value))))
            && db.State() == old(db.State()).(playlists := old(db.playlists)[i := r.data]))
  {
    if playlistId.None? || videoId.None? {
      r := Threw(Api(400, "Playlist ID and Video ID are required"));
      return;
    }
    FindByIdPresent(db.playlists, playlistId.value);
    var found := FindById(db.playlists, playlistId.value);
    if found.None? {
      r := Threw(Api(404, "Playlist not found"));
      return;
    }
    var i := found.value;
    var p := db.playlists[i];
    var index := IndexOf(p.data.videos, videoId.value);
    if index == -1 {
      r := Threw(Api(404, "Video not found in playlist"));
      return;
    }
    var d := Saved(p, now, p.data.(videos := RemoveAt(p.data.videos, index)));
    WellKeyedReplace(db.playlists, db.nextId, i, d);
    db.playlists := db.playlists[i := d];
    r := Wrote(200, d);
  }

  /** `deletePlaylist`: `findByIdAndDelete`, answering with the deleted playlist. */
  method DeletePlaylist(db: Db, playlistId: Option<Id>) returns (r: Completion<Doc<Playlist>>)
    requires db.Valid()
    modifies db
    ensures db.Valid()
    ensures r.Threw? ==> db.State() == old(db.State())
    ensures playlistId.None? ==> r == Threw(Api(400, "Playlist ID is required"))
    ensures playlistId.Some? && !HasId(old(db.playlists), playlistId.value) ==>
      r == Threw(Api(404, "Playlist not found"))
    ensures playlistId.Some? && FindById(old(db.playlists), playlistId.value).Some? ==>
      var i := FindById(old(db.playlists), playlistId.value).value;
      && r == Wrote(200, old(db.playlists)[i])
      && db.State() == old(db.State()).(playlists := RemoveAt(old(db.playlists), i))
      && !HasId(db.playlists, playlistId.value)
  {
    if playlistId.None? {
      r := Threw(Api(400, "Playlist ID is required"));
      return;
    }
    FindByIdPresent(db.playlists, playlistId.value);
    var found := FindById(db.playlists, playlistId.value);
    if found.None? {
      r := Threw(Api(404, "Playlist not found"));
      return;
    }
    var i := found.value;
    r := Wrote(200, db.playlists[i]);
    WellKeyedRemove(db.playlists, db.nextId, i);
    db.playlists := RemoveAt(db.playlists, i);
  }

  /** `updatePlaylist`: `findByIdAndUpdate` with the truthy fields. */
  method UpdatePlaylist(db: Db, playlistId: Option<Id>, name: Option<string>, description: Option<string>, now: Time)
    returns (r: Completion<Doc<Playlist>>)
    requires db.Valid()
    modifies db
    ensures db.Valid()
    ensures r.Threw? ==> db.State() == old(db.State())
    ensures playlistId.None? ==> r == Threw(Api(400, "Playlist ID is required"))
    ensures playlistId.Some? && !Truthy(name) && !Truthy(description) ==>
      r == Threw(Api(400, "At least one field (name or description) must be provided"))
    ensures playlistId.Some? && (Truthy(name) || Truthy(description)) && !HasId(old(db.playlists), playlistId.value) ==>
      r == Threw(Api(404, "Playlist not found"))
    ensures (playlistId.Some? && (Truthy(name) || Truthy(description)) &&
             FindById(old(db.playlists), playlistId.value).Some?) ==>
      var i := FindById(old(db.playlists), playlistId.value).value;
      var p := old(db.playlists)[i];
      && r == Wrote(200, Saved(p, now, Patch(p.data, name, description)))
      && db.State() == old(db.State()).(playlists := old(db.playlists)[i := r.data])
  {
    if playlistId.None? {
      r := Threw(Api(400, "Playlist ID is required"));
      return;
    }
    if !Truthy(name) && !Truthy(description) {
      r := Threw(Api(400, "At least one field (name or description) must be provided"));
      return;
    }
    FindByIdPresent(db.playlists, playlistId.value);
    var found := FindById(db.playlists, playlistId.value);
    if found.None? {
      r := Threw(Api(404, "Playlist not found"));
      return;
    }
    var i := found.value;
    var p := db.playlists[i];
    var d := Saved(p, now, Patch(p.data, name, description));
    WellKeyedReplace(db.playlists, db.nextId, i, d);
    db.playlists := db.playlists[i := d];
    r := Wrote(200, d);
  }
}
