/**
 * The records the remote metadata service returns, reduced to the keys the
 * modelled code reads. Numeric statistics arrive as decimal strings and are
 * converted with `int(...)`; here they are already non-negative integers.
 */
module Responses {

  /** One entry of a `channels().list(part='snippet,statistics')` response. */
  datatype ChannelResource = ChannelResource(
    title: string,
    description: string,
    subscriberCount: nat,
    videoCount: nat,
    viewCount: nat)

  datatype ChannelListResponse = ChannelListResponse(items: seq<ChannelResource>)

  /**
   * One entry of a `videos().list(...)` response: `id`, `snippet.title`,
   * `statistics.viewCount`, `statistics.likeCount` and
   * `contentDetails.duration` (an ISO 8601 duration string).
   */
  datatype VideoResource = VideoResource(
    id: string,
    title: string,
    viewCount: nat,
    likeCount: nat,
    duration: string)

  datatype VideoListResponse = VideoListResponse(items: seq<VideoResource>)

  /** One entry of a `playlists().list(part='snippet')` response. */
  datatype PlaylistResource = PlaylistResource(title: string)

  datatype PlaylistListResponse = PlaylistListResponse(items: seq<PlaylistResource>)
}
