/**
 * The playlist slice of the web client's store: its two plain reducers and
 * the pending, fulfilled and rejected cases of the eight playlist requests.
 * Each case updates the slice state in place; the updates produce fresh
 * copies of what they touch, so the state is modelled as values.
 */
module PlaylistSlice {
  import opened Wrappers

  /** A video as the client receives it. */
  datatype Video = Video(
    id: string,
    title: string,
    url: string,
    description: Option<string>,
    thumbnailUrl: Option<string>,
    duration: Option<string>,
    playlistId: string,
    createdAt: string)

  /** A playlist as the client receives it, with its videos. */
  datatype Playlist = Playlist(
    id: string,
    title: string,
    description: Option<string>,
    userId: string,
    isPublic: bool,
    tags: Option<seq<string>>,
    category: Option<string>,
    videos: seq<Video>,
    sharedWith: Option<seq<string>>,
    createdAt: string,
    updatedAt: string)

  /** `findIndex(p => p.id === id)`: the first index with that id, or -1. */
  function FindIndex(ps: seq<Playlist>, id: string): (i: int)
    ensures -1 <= i < |ps|
    ensures i == -1 <==> forall k :: 0 <= k < |ps| ==> ps[k].id != id
    ensures 0 <= i ==> ps[i].id == id && forall k :: 0 <= k < i ==> ps[k].id != id
  {
    if ps == [] then -1
    else if ps[0].id == id then 0
    else
      var j := FindIndex(ps[1..], id);
      if j == -1 then -1 else j + 1
  }

  /** The list after a playlist came back from the server: the first entry with its id is overwritten. */
  function ReplaceFirst(ps: seq<Playlist>, p: Playlist): (r: seq<Playlist>)
    ensures |r| == |ps|
  {
    var i := FindIndex(ps, p.id);
    if i == -1 then ps else ps[i := p]
  }

  /** Replacing never inserts, keeps the length, and touches at most the first entry with the id. */
  lemma ReplaceFirstSpec(ps: seq<Playlist>, p: Playlist)
    ensures |ReplaceFirst(ps, p)| == |ps|
    ensures (forall k :: 0 <= k < |ps| ==> ps[k].id != p.id) ==> ReplaceFirst(ps, p) == ps
    ensures forall k :: 0 <= k < |ps| && k != FindIndex(ps, p.id) ==> ReplaceFirst(ps, p)[k] == ps[k]
    ensures forall q :: q in ReplaceFirst(ps, p) ==> q in ps || q == p
    ensures (exists k :: 0 <= k < |ps| && ps[k].id == p.id) ==> p in ReplaceFirst(ps, p)
  {
    var i := FindIndex(ps, p.id);
    if i != -1 {
      assert ReplaceFirst(ps, p)[i] == p;
    }
  }

  /** `filter(p => p.id !== id)`. */
  function RemoveId(ps: seq<Playlist>, id: string): (r: seq<Playlist>)
    ensures |r| <= |ps|
    ensures forall q :: q in r <==> q in ps && q.id != id
  {
    if ps == [] then []
    else if ps[0].id == id then RemoveId(ps[1..], id)
    else [ps[0]] + RemoveId(ps[1..], id)
  }

  /** Removal keeps the order of the kept entries: it distributes over concatenation. */
  lemma {:induction false} RemoveIdConcat(a: seq<Playlist>, b: seq<Playlist>, id: string)
    ensures RemoveId(a + b, id) == RemoveId(a, id) + RemoveId(b, id)
  {
    if a != [] {
      assert (a + b)[0] == a[0];
      assert (a + b)[1..] == a[1..] + b;
      RemoveIdConcat(a[1..], b, id);
    } else {
      assert a + b == b;
    }
  }

  /** A list without that id is left as it is. */
  lemma {:induction false} RemoveIdAbsent(ps: seq<Playlist>, id: string)
    requires forall k :: 0 <= k < |ps| ==> ps[k].id != id
    ensures RemoveId(ps, id) == ps
  {
    if ps != [] {
      RemoveIdAbsent(ps[1..], id);
    }
  }

  /** `videos.filter(v => v.id !== videoId)`. */
  function RemoveVideoId(vs: seq<Video>, videoId: string): (r: seq<Video>)
    ensures |r| <= |vs|
    ensures forall v :: v in r <==> v in vs && v.id != videoId
  {
    if vs == [] then []
    else if vs[0].id == videoId then RemoveVideoId(vs[1..], videoId)
    else [vs[0]] + RemoveVideoId(vs[1..], videoId)
  }

  /** Video removal keeps the order of the kept videos. */
  lemma {:induction false} RemoveVideoIdConcat(a: seq<Video>, b: seq<Video>, videoId: string)
    ensures RemoveVideoId(a + b, videoId) == RemoveVideoId(a, videoId) + RemoveVideoId(b, videoId)
  {
    if a != [] {
      assert (a + b)[0] == a[0];
      assert (a + b)[1..] == a[1..] + b;
      RemoveVideoIdConcat(a[1..], b, videoId);
    } else {
      assert a + b == b;
    }
  }

  /** The list after a video was added: appended to the first playlist with that id. */
  function AddVideoTo(ps: seq<Playlist>, playlistId: string, video: Video): (r: seq<Playlist>)
    ensures |r| == |ps|
    ensures forall k :: 0 <= k < |ps| ==> r[k].id == ps[k].id
  {
    var i := FindIndex(ps, playlistId);
    if i == -1 then ps else ps[i := ps[i].(videos := ps[i].videos + [video])]
  }

  /** Only the first matching playlist gains the video, at the end; the others are unchanged. */
  lemma AddVideoToSpec(ps: seq<Playlist>, playlistId: string, video: Video)
    ensures forall k :: 0 <= k < |ps| && k != FindIndex(ps, playlistId) ==> AddVideoTo(ps, playlistId, video)[k] == ps[k]
    ensures var i := FindIndex(ps, playlistId);
            0 <= i ==> AddVideoTo(ps, playlistId, video)[i] == ps[i].(videos := ps[i].videos + [video])
  {
  }

  /** The list after a video was removed: dropped from the first playlist with that id. */
  function RemoveVideoFrom(ps: seq<Playlist>, playlistId: string, videoId: string): (r: seq<Playlist>)
    ensures |r| == |ps|
    ensures forall k :: 0 <= k < |ps| ==> r[k].id == ps[k].id
  {
    var i := FindIndex(ps, playlistId);
    if i == -1 then ps else ps[i := ps[i].(videos := RemoveVideoId(ps[i].videos, videoId))]
  }

  /** Only the first matching playlist loses videos, and only those with that id. */
  lemma RemoveVideoFromSpec(ps: seq<Playlist>, playlistId: string, videoId: string)
    ensures forall k :: 0 <= k < |ps| && k != FindIndex(ps, playlistId) ==> RemoveVideoFrom(ps, playlistId, videoId)[k] == ps[k]
    ensures var i := FindIndex(ps, playlistId);
            0 <= i ==> forall v :: v in RemoveVideoFrom(ps, playlistId, videoId)[i].videos <==> v in ps[i].videos && v.id != videoId
  {
  }

  /** `PlaylistState`. */
  class PlaylistSlice {
    var playlists: seq<Playlist>
    var currentPlaylist: Option<Playlist>
    var isLoading: bool
    var error: Option<string>

    /** `initialState`. */
    constructor ()
      ensures playlists == [] && currentPlaylist == None && !isLoading && error == None
    {
      playlists := [];
      currentPlaylist := None;
      isLoading := false;
      error := None;
    }

    /** `clearError`. */
    method ClearError()
      modifies this
      ensures error == None
      ensures playlists == old(playlists) && currentPlaylist == old(currentPlaylist) && isLoading == old(isLoading)
    {
      error := None;
    }

    /** `clearCurrentPlaylist`. */
    method ClearCurrentPlaylist()
      modifies this
      ensures currentPlaylist == None
      ensures playlists == old(playlists) && isLoading == old(isLoading) && error == old(error)
    {
      currentPlaylist := None;
    }

    /** The `pending` case, the same for every request. */
    method Pending()
      modifies this
      ensures isLoading && error == None
      ensures playlists == old(playlists) && currentPlaylist == old(currentPlaylist)
    {
      isLoading := true;
      error := None;
    }

    /** The `rejected` case, the same for every request: the payload is the error message. */
    method Rejected(message: string)
      modifies this
      ensures !isLoading && error == Some(message)
      ensures playlists == old(playlists) && currentPlaylist == old(currentPlaylist)
    {
      isLoading := false;
      error := Some(message);
    }

    /** `fetchPlaylists` and `filterPlaylists` fulfilled: the list is replaced wholesale. */
    method ListFulfilled(payload: seq<Playlist>)
      modifies this
      ensures !isLoading && playlists == payload
      ensures currentPlaylist == old(currentPlaylist) && error == old(error)
    {
      isLoading := false;
      playlists := payload;
    }

    /**
     * `fetchPlaylist`, `updatePlaylist` and `sharePlaylist` fulfilled: the
     * payload becomes current and overwrites the first list entry with its id.
     */
    method OneFulfilled(payload: Playlist)
      modifies this
      ensures !isLoading && currentPlaylist == Some(payload)
      ensures playlists == ReplaceFirst(old(playlists), payload)
      ensures |playlists| == |old(playlists)|
      ensures error == old(error)
    {
      isLoading := false;
      currentPlaylist := Some(payload);
      var index := FindIndex(playlists, payload.id);
      if index != -1 {
        playlists := playlists[index := payload];
      }
    }

    /** `createPlaylist` fulfilled: the payload is appended and becomes current. */
    method CreateFulfilled(payload: Playlist)
      modifies this
      ensures !isLoading && currentPlaylist == Some(payload)
      ensures playlists == old(playlists) + [payload]
      ensures error == old(error)
    {
      isLoading := false;
      playlists := playlists + [payload];
      currentPlaylist := Some(payload);
    }

    /**
     * `deletePlaylist` fulfilled: every entry with the id goes; the current
     * playlist is cleared only when it has that id.
     */
    method DeleteFulfilled(id: string)
      modifies this
      ensures !isLoading && error == old(error)
      ensures playlists == RemoveId(old(playlists), id)
      ensures forall q :: q in playlists ==> q.id != id
      ensures currentPlaylist == if old(currentPlaylist).Some? && old(currentPlaylist).value.id == id
                                 then None else old(currentPlaylist)
    {
      isLoading := false;
      playlists := RemoveId(playlists, id);
      if currentPlaylist.Some? && currentPlaylist.value.id == id {
        currentPlaylist := None;
      }
    }

    /**
     * `addVideo` fulfilled: the video is appended to the first list entry with
     * the playlist id, and to the current playlist when it has that id.
     */
    method AddVideoFulfilled(video: Video, playlistId: string)
      modifies this
      ensures !isLoading && error == old(error)
      ensures playlists == AddVideoTo(old(playlists), playlistId, video)
      ensures currentPlaylist == if old(currentPlaylist).Some? && old(currentPlaylist).value.id == playlistId
                                 then Some(old(currentPlaylist).value.(videos := old(currentPlaylist).value.videos + [video]))
                                 else old(currentPlaylist)
    {
      isLoading := false;
      var playlistIndex := FindIndex(playlists, playlistId);
      if playlistIndex != -1 {
        playlists := playlists[playlistIndex := playlists[playlistIndex].(videos := playlists[playlistIndex].videos + [video])];
      }
      if currentPlaylist.Some? && currentPlaylist.value.id == playlistId {
        currentPlaylist := Some(currentPlaylist.value.(videos := currentPlaylist.value.videos + [video]));
      }
    }

    /**
     * `removeVideo` fulfilled: videos with that id are dropped from the first
     * list entry with the playlist id and from the current playlist when it has
     * that id.
     */
    method RemoveVideoFulfilled(videoId: string, playlistId: string)
      modifies this
      ensures !isLoading && error == old(error)
      ensures playlists == RemoveVideoFrom(old(playlists), playlistId, videoId)
      ensures currentPlaylist == if old(currentPlaylist).Some? && old(currentPlaylist).value.id == playlistId
                                 then Some(old(currentPlaylist).value.(videos := RemoveVideoId(old(currentPlaylist).value.videos, videoId)))
                                 else old(currentPlaylist)
    {
      isLoading := false;
      var playlistIndex := FindIndex(playlists, playlistId);
      if playlistIndex != -1 {
        playlists := playlists[playlistIndex := playlists[playlistIndex].(videos := RemoveVideoId(playlists[playlistIndex].videos, videoId))];
      }
      if currentPlaylist.Some? && currentPlaylist.value.id == playlistId {
        currentPlaylist := Some(currentPlaylist.value.(videos := RemoveVideoId(currentPlaylist.value.videos, videoId)));
      }
    }
  }
}
