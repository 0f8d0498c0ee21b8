/**
 * The video service of the playlist back end: adding a video to a playlist and
 * removing one from it, both behind the playlist's view gate and then its owner
 * gate.
 */
module VideosService {
  import opened Wrappers
  import opened PlaylistsService

  /** The body of `POST /playlists/:playlistId/videos`; absent optional fields are `None`. */
  datatype CreateVideoDto = CreateVideoDto(
    title: string,
    url: string,
    description: Option<string>,
    thumbnailUrl: Option<string>,
    duration: Option<string>)

  /** `videosRepository.findOne({ where: { id, playlistId } })`: the video, only if it sits in that playlist. */
  function FindInPlaylist(videos: map<string, Video>, videoId: string, playlistId: string): (r: Option<Video>)
    ensures r.Some? <==> videoId in videos && videos[videoId].playlistId == playlistId
    ensures r.Some? ==> r.value == videos[videoId]
  {
    if videoId in videos && videos[videoId].playlistId == playlistId then Some(videos[videoId]) else None
  }

  /** A video lookup through another playlist's id finds nothing. */
  lemma FindInOtherPlaylist(videos: map<string, Video>, videoId: string, playlistId: string, other: string)
    requires FindInPlaylist(videos, videoId, playlistId).Some? && other != playlistId
    ensures FindInPlaylist(videos, videoId, other) == None
  {
  }

  /**
   * `addVideoToPlaylist`: the owner's playlist gets one new video row pointing
   * at it; a failed gate changes nothing.
   */
  method AddVideoToPlaylist(repo: Repository, playlistId: string, dto: CreateVideoDto, userId: string, newId: string)
    returns (r: Result<Video, Error>)
    requires repo.Valid() && newId !in repo.videos
    requires dto.title != [] && dto.url != []
    modifies repo
    ensures repo.Valid() && repo.playlists == old(repo.playlists)
    ensures old(repo.FindOne(playlistId, userId)).Failure? ==>
              r == Failure(old(repo.FindOne(playlistId, userId)).error) && repo.videos == old(repo.videos)
    ensures old(repo.FindOne(playlistId, userId)).Success? && old(repo.playlists[playlistId]).userId != userId ==>
              r == Failure(Forbidden) && repo.videos == old(repo.videos)
    ensures playlistId in old(repo.playlists) && old(repo.playlists[playlistId]).userId == userId ==>
              && r == Success(Video(newId, dto.title, dto.url, dto.description, dto.thumbnailUrl, dto.duration, playlistId))
              && repo.videos == old(repo.videos)[newId := r.value]
              && FindInPlaylist(repo.videos, newId, playlistId) == Some(r.value)
  {
    var found := repo.FindOne(playlistId, userId);
    if found.Failure? {
      return Failure(found.error);
    }
    if found.value.userId != userId {
      return Failure(Forbidden);
    }
    var video := Video(newId, dto.title, dto.url, dto.description, dto.thumbnailUrl, dto.duration, playlistId);
    repo.videos := repo.videos[newId := video];
    r := Success(video);
  }

  /**
   * `removeVideoFromPlaylist`: behind the two gates, the video is removed only
   * when it belongs to that playlist; otherwise the answer is NotFound.
   */
  method RemoveVideoFromPlaylist(repo: Repository, playlistId: string, videoId: string, userId: string)
    returns (r: Result<(), Error>)
    requires repo.Valid()
    modifies repo
    ensures repo.Valid() && repo.playlists == old(repo.playlists)
    ensures old(repo.FindOne(playlistId, userId)).Failure? ==>
              r == Failure(old(repo.FindOne(playlistId, userId)).error) && repo.videos == old(repo.videos)
    ensures old(repo.FindOne(playlistId, userId)).Success? && old(repo.playlists[playlistId]).userId != userId ==>
              r == Failure(Forbidden) && repo.videos == old(repo.videos)
    ensures playlistId in old(repo.playlists) && old(repo.playlists[playlistId]).userId == userId ==>
              if FindInPlaylist(old(repo.videos), videoId, playlistId).None?
              then r == Failure(NotFound) && repo.videos == old(repo.videos)
              else r == Success(()) && repo.videos == old(repo.videos) - {videoId}
  {
    var found := repo.FindOne(playlistId, userId);
    if found.Failure? {
      return Failure(found.error);
    }
    if found.value.userId != userId {
      return Failure(Forbidden);
    }
    var video := FindInPlaylist(repo.videos, videoId, playlistId);
    if video.None? {
      return Failure(NotFound);
    }
    repo.videos := repo.videos - {video.value.id};
    r := Success(());
  }
}
