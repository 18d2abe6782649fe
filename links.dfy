/** The public URLs derived from channel, playlist and video identifiers. */
module Links {
  import opened Wrappers

  const ChannelBase: string := "https://www.youtube.com/channel/"
  const PlaylistBase: string := "https://www.youtube.com/playlist?list="
  const ShortBase: string := "https://youtu.be/"

  /** The identifier that follows `prefix` in `url`, if `url` starts with `prefix`. */
  function StripPrefix(prefix: string, url: string): (r: Option<string>)
    ensures r.Some? <==> prefix <= url
    ensures r.Some? ==> prefix + r.value == url
  {
    if prefix <= url then Some(url[|prefix|..]) else None
  }

  /** `channel_link` of a channel. */
  function ChannelLink(channelId: string): (link: string)
    ensures StripPrefix(ChannelBase, link) == Some(channelId)
  {
    ChannelBase + channelId
  }

  /** `playlist_url` of a playlist. */
  function PlaylistUrl(playlistId: string): (url: string)
    ensures StripPrefix(PlaylistBase, url) == Some(playlistId)
  {
    PlaylistBase + playlistId
  }

  /** The short link `show_best_video` returns for a video. */
  function ShortLink(videoId: string): (link: string)
    ensures StripPrefix(ShortBase, link) == Some(videoId)
  {
    ShortBase + videoId
  }

  /** Distinct identifiers give distinct links of each kind. */
  lemma LinksAreInjective(a: string, b: string)
    ensures ChannelLink(a) == ChannelLink(b) ==> a == b
    ensures PlaylistUrl(a) == PlaylistUrl(b) ==> a == b
    ensures ShortLink(a) == ShortLink(b) ==> a == b
  {
    if ChannelLink(a) == ChannelLink(b) {
      assert StripPrefix(ChannelBase, ChannelLink(a)) == StripPrefix(ChannelBase, ChannelLink(b));
    }
    if PlaylistUrl(a) == PlaylistUrl(b) {
      assert StripPrefix(PlaylistBase, PlaylistUrl(a)) == StripPrefix(PlaylistBase, PlaylistUrl(b));
    }
    if ShortLink(a) == ShortLink(b) {
      assert StripPrefix(ShortBase, ShortLink(a)) == StripPrefix(ShortBase, ShortLink(b));
    }
  }

  /** A channel link, a playlist URL and a short link are never the same string. */
  lemma LinkKindsAreDisjoint(a: string, b: string)
    ensures ChannelLink(a) != PlaylistUrl(b)
    ensures ChannelLink(a) != ShortLink(b)
    ensures PlaylistUrl(a) != ShortLink(b)
  {
    assert ChannelLink(a)[8] == 'w' && ShortLink(b)[8] == 'y';
    assert PlaylistUrl(a)[8] == 'w';
    assert ChannelLink(a)[24] == 'c' && PlaylistUrl(b)[24] == 'p';
  }
}
