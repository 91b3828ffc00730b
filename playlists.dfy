/** The playlist handlers (src/controllers/playlist.controllers.js). Every
    mutating handler checks, in this order: the ids are well formed (400), the
    playlist exists (404), the requester owns it (403); only then does it write. */
module Playlists {

  import opened Common
  import opened Seqs
  import opened Store

  /** createPlaylist: name and description are required; the new playlist is
      owned by the requester and starts empty. */
  method CreatePlaylist(db: Database, me: Id, name: Option<string>, description: Option<string>,
                        newId: Id) returns (r: Response<Playlist>)
    requires db.Valid() && newId !in db.playlists
    modifies db`playlists
    ensures db.Valid()
    ensures !Truthy(name) || !Truthy(description) ==>
              r == Error(400, "All fields are required") && db.playlists == old(db.playlists)
    ensures Truthy(name) && Truthy(description) ==>
              && r == Ok(201, Playlist(newId, name.value, description.value, me, []))
              && db.playlists == old(db.playlists)[newId := r.value]
  {
    if !Truthy(name) || !Truthy(description) {
      return Error(400, "All fields are required");
    }
    var playlist := Playlist(newId, name.value, description.value, me, []);
    db.playlists := db.playlists[newId := playlist];
    r := Ok(201, playlist);
  }

  /** getUserPlaylists: the requester's playlists. */
  method GetUserPlaylists(db: Database, me: Id) returns (r: Response<set<Playlist>>)
    ensures r.Ok? && r.code == 200
    ensures forall p :: p in r.value <==> p in db.playlists.Values && p.owner == me
  {
    r := Ok(200, set k | k in db.playlists && db.playlists[k].owner == me :: db.playlists[k]);
  }

  /** getPlaylistById: 400 for a malformed id, 404 for a missing playlist;
      anyone may read any playlist. */
  method GetPlaylistById(db: Database, playlistId: Id) returns (r: Response<Playlist>)
    ensures !ValidId(playlistId) ==> r == Error(400, "Invalid playlist ID")
    ensures ValidId(playlistId) && playlistId !in db.playlists ==> r == Error(404, "Playlist not found")
    ensures r.Ok? <==> ValidId(playlistId) && playlistId in db.playlists
    ensures r.Ok? ==> r == Ok(200, db.playlists[playlistId])
  {
    if !ValidId(playlistId) {
      return Error(400, "Invalid playlist ID");
    }
    if playlistId !in db.playlists {
      return Error(404, "Playlist not found");
    }
    r := Ok(200, db.playlists[playlistId]);
  }

  /** The add step of addVideoToPlaylist as written: `includes` compares the
      stored ids, in canonical lower-case form, with the request string as
      sent, while `push` stores the id the string casts to. */
  function AddVideoAsWritten(p: Playlist, videoId: string): (q: Playlist)
    requires IsObjectIdString(videoId)
    ensures q == p.(videos := q.videos)
    ensures videoId in p.videos ==> q == p
    ensures videoId !in p.videos ==> q.videos == p.videos + [Cast(videoId)]
    ensures ValidId(videoId) ==> q == AddVideo(p, videoId)
  {
    if videoId in p.videos then p else p.(videos := p.videos + [Cast(videoId)])
  }

  /** As written, adding a listed video again under a capitalised spelling of
      its id stores a second copy. */
  lemma {:induction false} CapitalisedAddDuplicates(p: Playlist)
    requires p.videos == []
    ensures var lower := seq(24, i => 'a'); var upper := seq(24, i => 'A');
            && ValidId(lower) && IsObjectIdString(upper)
            && AddVideoAsWritten(AddVideoAsWritten(p, lower), upper).videos == [lower, lower]
  {
    var lower := seq(24, i => 'a');
    var upper := seq(24, i => 'A');
    assert forall i :: 0 <= i < |upper| ==> LowerChar(upper[i]) == 'a';
    assert Cast(upper) == lower;
    CanonicalIdAccepted(lower);
    assert AddVideoAsWritten(p, lower).videos == [lower];
    assert upper !in [lower] by {
      assert upper[0] != lower[0];
    }
  }

  /** The add step as intended: the `includes` test and the `push` both use
      the id the request string casts to, so the cast id is appended only
      when the list lacks it. */
  function AddVideo(p: Playlist, videoId: string): (q: Playlist)
    requires IsObjectIdString(videoId)
    ensures q == p.(videos := q.videos)
    ensures Cast(videoId) in p.videos ==> q == p
    ensures Cast(videoId) !in p.videos ==> q.videos == p.videos + [Cast(videoId)]
    ensures Distinct(p.videos) ==> Distinct(q.videos)
  {
    p.(videos := AppendIfAbsent(p.videos, Cast(videoId)))
  }

  /** The remove step of removeVideoFromPlaylist as written: the filter compares
      each stored id, in its canonical form, with the request string as sent. */
  function RemoveVideoAsWritten(p: Playlist, videoId: string): (q: Playlist)
    ensures q == p.(videos := q.videos)
    ensures videoId !in q.videos
    ensures forall v :: v != videoId ==> multiset(q.videos)[v] == multiset(p.videos)[v]
    ensures videoId !in p.videos ==> q == p
  {
    p.(videos := RemoveAll(p.videos, videoId))
  }

  /** The remove step as intended: every occurrence of the id the request
      string casts to is dropped, and nothing else. On a canonical id it is
      the step as written. */
  function RemoveVideo(p: Playlist, videoId: string): (q: Playlist)
    requires IsObjectIdString(videoId)
    ensures q == p.(videos := q.videos)
    ensures Cast(videoId) !in q.videos
    ensures forall v :: v != Cast(videoId) ==> multiset(q.videos)[v] == multiset(p.videos)[v]
    ensures Distinct(p.videos) ==> Distinct(q.videos)
    ensures ValidId(videoId) ==> q == RemoveVideoAsWritten(p, videoId)
  {
    p.(videos := RemoveAll(p.videos, Cast(videoId)))
  }

  /** As written, removing a video by the capitalised spelling it was added
      with leaves it in the playlist: the add stored the cast id, and the
      filter compares against the spelling as sent. */
  lemma {:induction false} CapitalisedRemoveKeepsVideo(p: Playlist)
    requires p.videos == []
    ensures var videoId := seq(24, i => 'A');
            && IsObjectIdString(videoId)
            && RemoveVideoAsWritten(AddVideo(p, videoId), videoId).videos == [Cast(videoId)]
  {
    var videoId := seq(24, i => 'A');
    assert forall i :: 0 <= i < |videoId| ==> LowerChar(videoId[i]) == 'a';
    var id := Cast(videoId);
    assert id[0] == 'a' && videoId[0] == 'A';
    assert AddVideo(p, videoId).videos == [id];
    assert RemoveVideoAsWritten(AddVideo(p, videoId), videoId).videos == [id] by {
      assert videoId !in [id];
    }
  }

  /** addVideoToPlaylist: after the guards, the cast video id is pushed only
      when the list lacks it (the intended step; see AddVideoAsWritten). */
  method AddVideoToPlaylist(db: Database, me: Id, playlistId: Id, videoId: string)
    returns (r: Response<Playlist>)
    requires db.Valid()
    modifies db`playlists
    ensures db.Valid()
    ensures !ValidId(playlistId) ==> r == Error(400, "Invalid playlist ID")
    ensures ValidId(playlistId) && !IsObjectIdString(videoId) ==> r == Error(400, "Invalid video ID")
    ensures ValidId(playlistId) && IsObjectIdString(videoId) && playlistId !in old(db.playlists) ==>
              r == Error(404, "Playlist not found")
    ensures ValidId(playlistId) && IsObjectIdString(videoId) && playlistId in old(db.playlists)
            && old(db.playlists)[playlistId].owner != me ==>
              r == Error(403, "You are not authorized to update this playlist")
    ensures r.Error? ==> db.playlists == old(db.playlists)
    ensures r.Ok? <==> ValidId(playlistId) && IsObjectIdString(videoId) && playlistId in old(db.playlists)
                       && old(db.playlists)[playlistId].owner == me
    ensures r.Ok? ==>
              && r == Ok(200, AddVideo(old(db.playlists)[playlistId], videoId))
              && db.playlists == old(db.playlists)[playlistId := r.value]
  {
    if !ValidId(playlistId) {
      return Error(400, "Invalid playlist ID");
    }
    if !IsObjectIdString(videoId) {
      return Error(400, "Invalid video ID");
    }
    if playlistId !in db.playlists {
      return Error(404, "Playlist not found");
    }
    var playlist := db.playlists[playlistId];
    if playlist.owner != me {
      return Error(403, "You are not authorized to update this playlist");
    }
    var id := Cast(videoId);
    if id !in playlist.videos {
      playlist := playlist.(videos := playlist.videos + [id]);
      db.playlists := db.playlists[playlistId := playlist];
    }
    r := Ok(200, playlist);
  }

  /** removeVideoFromPlaylist: after the guards, the list loses every
      occurrence of the video id (the intended step; see RemoveVideoAsWritten). */
  method RemoveVideoFromPlaylist(db: Database, me: Id, playlistId: Id, videoId: string)
    returns (r: Response<Playlist>)
    requires db.Valid()
    modifies db`playlists
    ensures db.Valid()
    ensures !ValidId(playlistId) ==> r == Error(400, "Invalid playlist ID")
    ensures ValidId(playlistId) && !IsObjectIdString(videoId) ==> r == Error(400, "Invalid video ID")
    ensures ValidId(playlistId) && IsObjectIdString(videoId) && playlistId !in old(db.playlists) ==>
              r == Error(404, "Playlist not found")
    ensures ValidId(playlistId) && IsObjectIdString(videoId) && playlistId in old(db.playlists)
            && old(db.playlists)[playlistId].owner != me ==>
              r == Error(403, "You are not authorized to update this playlist")
    ensures r.Error? ==> db.playlists == old(db.playlists)
    ensures r.Ok? <==> ValidId(playlistId) && IsObjectIdString(videoId) && playlistId in old(db.playlists)
                       && old(db.playlists)[playlistId].owner == me
    ensures r.Ok? ==>
              && r == Ok(200, RemoveVideo(old(db.playlists)[playlistId], videoId))
              && db.playlists == old(db.playlists)[playlistId := r.value]
  {
    if !ValidId(playlistId) {
      return Error(400, "Invalid playlist ID");
    }
    if !IsObjectIdString(videoId) {
      return Error(400, "Invalid video ID");
    }
    if playlistId !in db.playlists {
      return Error(404, "Playlist not found");
    }
    var playlist := db.playlists[playlistId];
    if playlist.owner != me {
      return Error(403, "You are not authorized to update this playlist");
    }
    playlist := RemoveVideo(playlist, videoId);
    db.playlists := db.playlists[playlistId := playlist];
    r := Ok(200, playlist);
  }

  /** deletePlaylist: after the guards, exactly the target playlist is gone. */
  method DeletePlaylist(db: Database, me: Id, playlistId: Id) returns (r: Response<()>)
    requires db.Valid()
    modifies db`playlists
    ensures db.Valid()
    ensures !ValidId(playlistId) ==> r == Error(400, "Invalid playlist ID")
    ensures ValidId(playlistId) && playlistId !in old(db.playlists) ==> r == Error(404, "Playlist not found")
    ensures ValidId(playlistId) && playlistId in old(db.playlists)
            && old(db.playlists)[playlistId].owner != me ==>
              r == Error(403, "You are not authorized to delete this playlist")
    ensures r.Error? ==> db.playlists == old(db.playlists)
    ensures r.Ok? <==> ValidId(playlistId) && playlistId in old(db.playlists)
                       && old(db.playlists)[playlistId].owner == me
    ensures r.Ok? ==> r.code == 200 && db.playlists == old(db.playlists) - {playlistId}
  {
    if !ValidId(playlistId) {
      return Error(400, "Invalid playlist ID");
    }
    if playlistId !in db.playlists {
      return Error(404, "Playlist not found");
    }
    if db.playlists[playlistId].owner != me {
      return Error(403, "You are not authorized to delete this playlist");
    }
    db.playlists := db.playlists - {playlistId};
    r := Ok(200, ());
  }

  /** Adding a video is idempotent: a second add of the same id, in any
      spelling that casts to it, changes nothing. */
  lemma {:induction false} AddVideoIdempotent(p: Playlist, videoId: string, again: string)
    requires IsObjectIdString(videoId) && IsObjectIdString(again) && Cast(again) == Cast(videoId)
    ensures AddVideo(AddVideo(p, videoId), again) == AddVideo(p, videoId)
  {
    AppendIfAbsentIdempotent(p.videos, Cast(videoId));
  }

  /** Removing a video that was just added to a playlist lacking it restores
      the playlist, whatever the case of the id as sent. */
  lemma {:induction false} RemoveUndoesAdd(p: Playlist, videoId: string)
    requires IsObjectIdString(videoId) && Cast(videoId) !in p.videos
    ensures RemoveVideo(AddVideo(p, videoId), videoId) == p
  {
    RemoveAllUndoesAppend(p.videos, Cast(videoId));
  }
}
