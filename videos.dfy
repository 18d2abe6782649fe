/** A video snapshot (class `Video`) and a video seen through a playlist (class `PLVideo`). */
module Videos {
  import opened Wrappers
  import opened Responses

  /**
   * The attributes `Video.__init__` assigns. Title, views and likes are
   * `None` when the lookup found no video.
   */
  datatype Video = Video(
    videoId: string,
    videoTitle: Option<string>,
    videoViews: Option<nat>,
    videoLikes: Option<nat>)
  {
    /** The lookup found nothing: every statistic is absent. */
    predicate Absent() {
      videoTitle.None? && videoViews.None? && videoLikes.None?
    }
  }

  /** `PLVideo.__init__`: the underlying video plus the owning playlist's id and title. */
  datatype PLVideo = PLVideo(video: Video, playlistId: string, playlistTitle: string)

  /**
   * `Video(video_id)` given the video lookup's response. An empty `items`
   * list raises `IndexError`, which the constructor catches and answers with
   * absent fields; the identifier is assigned before the lookup either way.
   */
  function NewVideo(videoId: string, response: VideoListResponse): (v: Video)
    ensures v.videoId == videoId
    ensures v.Absent() <==> |response.items| == 0
    ensures |response.items| > 0 ==>
      && v.videoTitle == Some(response.items[0].title)
      && v.videoViews == Some(response.items[0].viewCount)
      && v.videoLikes == Some(response.items[0].likeCount)
  {
    if |response.items| == 0 then
      Video(videoId, None, None, None)
    else
      var item := response.items[0];
      Video(videoId, Some(item.title), Some(item.viewCount), Some(item.likeCount))
  }

  /**
   * `PLVideo(video_id, playlist_id)`: builds the video (which cannot fail),
   * then reads the playlist title, raising `IndexError` when the playlist
   * lookup returned no item (this one is not caught).
   */
  function NewPLVideo(videoId: string, playlistId: string,
                      videoResponse: VideoListResponse,
                      playlistResponse: PlaylistListResponse): (r: Result<PLVideo>)
    ensures r.Failure? <==> |playlistResponse.items| == 0
    ensures r.Failure? ==> r.error == IndexError
    ensures r.Success? ==>
      && r.value.video == NewVideo(videoId, videoResponse)
      && r.value.video.videoId == videoId
      && (r.value.video.Absent() <==> |videoResponse.items| == 0)
      && r.value.playlistId == playlistId
      && r.value.playlistTitle == playlistResponse.items[0].title
  {
    var video := NewVideo(videoId, videoResponse);
    if |playlistResponse.items| == 0 then
      Failure(IndexError)
    else
      Success(PLVideo(video, playlistId, playlistResponse.items[0].title))
  }
}
