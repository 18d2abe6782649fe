# YouTube analytics: channel, video and playlist snapshots

This project is a Dafny model of the `youtube/youtube.py` module of a small YouTube Data API
client. The module wraps the remote lookups in four classes:

- `Youtube` is a channel. It sums subscriber counts with `+` and compares them with `>`.
- `Video` is a single video. It tolerates a video that does not resolve.
- `PLVideo` is a video seen through a playlist.
- `PlayList` is a playlist. It derives two aggregates from one batched video lookup:
  - `total_duration`, the sum of the members' ISO 8601 durations;
  - `show_best_video`, a short link to the member with the most likes.

None of these objects changes after `__init__`. Each is therefore a Dafny `datatype` with a construction
function:

- The remote responses are parameters: datatypes in module `Responses` that hold only the keys the code reads.
- The construction function returns `Failure(IndexError)` exactly where the Python indexes `['items'][0]`
  on an empty list without catching the error.
- `Video` catches that error. It then gets absent title, views and likes (`Videos.NewVideo`).

The two aggregates are loops in the source. They are methods with loop invariants:

- `TotalDuration` is proved against `DurationSum`, a reference sum. Lemmas prove the sum is zero
  on an empty playlist, additive over concatenation and invariant under any reordering of the members.
- `ShowBestVideo` is modelled as written: the running maximum starts at 0 and the choice changes
  only on a strictly greater like count. So:
  - the earliest of several tied videos wins;
  - a video with zero likes never wins;
  - with no positive like count, `best_video["id"]` fails on `None`, modelled as `Failure(TypeError)`.

  Its result is tied to `EarliestMostLiked`, an independent characterisation. Lemmas prove that at most one
  member satisfies it, and that some member does exactly when some like count is positive.

The derived URLs are fixed prefixes plus the identifier. Each link function states the inverse: stripping
the prefix gives back the identifier. From that, the links are injective, and links of different kinds never
coincide.

`isodate.parse_duration` is a parameter `parseDuration: string -> Option<nat>`. It maps a duration string
to whole seconds, or to `None` when the parser raises `ISO8601Error`. That exception is not caught, so it
ends the whole sum (`Failure(ISO8601Error)`).

Behaviour of the code worth noting:

- The batched video lookup is made once, in `PlayList.__init__` (youtube/youtube.py:148), so the aggregates do not fetch again.
- A zero-like video cannot be the best video, because the running maximum starts at 0 (youtube/youtube.py:185, 188).
- "No best video" is the `TypeError` of subscripting `None` (youtube/youtube.py:191), not an absent result.
- The aggregates walk the batched response in its own order; they never match its records against the playlist's member ids.
- All member ids go into one lookup (youtube/youtube.py:148); nothing splits them into smaller batches.

## Model

| member | source | states |
|---|---|---|
| Links.ChannelLink | youtube/youtube.py:20 | `channel_link` starts with `https://www.youtube.com/channel/`, and stripping that prefix gives back the channel id |
| Links.PlaylistUrl | youtube/youtube.py:152 | `playlist_url` starts with `https://www.youtube.com/playlist?list=`, and stripping it gives back the playlist id |
| Links.ShortLink | youtube/youtube.py:191 | the best-video link starts with `https://youtu.be/`, and stripping it gives back the video id |
| Links.LinksAreInjective | youtube/youtube.py:20 | different ids give different channel links; the same holds for playlist URLs (line 152) and short links (line 191) |
| Links.LinkKindsAreDisjoint | youtube/youtube.py:20 | a channel link is never a playlist URL or a short link, and a playlist URL is never a short link (lines 152, 191) |
| Channels.NewYoutube | youtube/youtube.py:11-23 | building a channel fails with `IndexError` exactly when the channel response has no items; otherwise the id is the one asked for, the link is derived from it, and the other five fields (title, description and the three counts) are those of the first item |
| Channels.Youtube.Add | youtube/youtube.py:31-34 | `a + other` is a number exactly when `other` is a `Youtube`, and that number is the sum of the two subscriber counts; otherwise it is `None` |
| Channels.Youtube.GreaterThan | youtube/youtube.py:36-39 | `a > other` is a boolean exactly when `other` is a `Youtube`, true exactly when `a` has more subscribers; otherwise it is `None` |
| Channels.AddIsCommutative | youtube/youtube.py:31-34 | for two channels `a + b == b + a`, and the sum is at least each channel's own subscriber count |
| Channels.GreaterThanIsStrictOrder | youtube/youtube.py:36-39 | between channels `>` is irreflexive, asymmetric and transitive |
| Channels.GreaterThanTrichotomy | youtube/youtube.py:36-39 | neither of two channels is `>` the other exactly when their subscriber counts are equal |
| Videos.NewVideo | youtube/youtube.py:66-80 | the id is always set; title, views and likes are all absent exactly when the video response has no items, and otherwise are those of the first item |
| Videos.NewPLVideo | youtube/youtube.py:100-106 | the video part is exactly what `Video` builds from the same video response and never fails; the whole construction fails with `IndexError` exactly when the playlist response has no items; otherwise it carries the playlist id and the first item's title |
| PlayLists.NewPlayList | youtube/youtube.py:141-152 | construction fails with `IndexError` exactly when the playlist response has no items; otherwise the title is the first item's, the URL is derived from the id, and the batched video response is kept as given |
| PlayLists.TotalDuration | youtube/youtube.py:168-179 | fails with `ISO8601Error` exactly when some member's duration does not parse; otherwise returns the sum of all members' parsed durations |
| PlayLists.DurationSumEmpty | youtube/youtube.py:171-179 | the total of a playlist with no members is zero |
| PlayLists.DurationSumSingle | youtube/youtube.py:175-177 | one member contributes exactly its parsed duration |
| PlayLists.DurationSumAppend | youtube/youtube.py:173-177 | the total of two member lists put together is the sum of their totals |
| PlayLists.DurationSumRemove | youtube/youtube.py:173-177 | taking any one member out lowers the total by exactly that member's duration |
| PlayLists.DurationSumPermutation | youtube/youtube.py:173-177 | any reordering of the members parses and gives the same total |
| PlayLists.ShowBestVideo | youtube/youtube.py:181-191 | fails with `TypeError` exactly when no member has a positive like count (an empty playlist included); otherwise returns `https://youtu.be/` plus the id of the member with a positive, maximal like count that is strictly greater than every earlier member's |
| PlayLists.EarliestMostLikedIsUnique | youtube/youtube.py:184-190 | at most one member is that earliest strict maximum, so the returned link is determined |
| PlayLists.EarliestMostLikedExists | youtube/youtube.py:184-191 | such a member exists exactly when some like count is positive |
| PlayLists.TieGoesToEarliest | youtube/youtube.py:188-190 | of two members with equal like counts, the later one is never picked |

## Left out

- Remote calls and credentials (`youtube/mixin.py`): every lookup is a parameter holding its response. The API key read from the environment is not part of this model.
- `video_ids` (youtube/youtube.py:147): the member ids, fetched by their own playlist-items call, that only feed the batched lookup at line 148. The model receives that lookup's response directly.
- `playlist_videos` (youtube/youtube.py:146): a remote playlist-items response that only `print_info_playlist_videos` (line 166) reads, which is printing.
- `int(...)` conversion of statistics and missing keys such as an absent `likeCount` (youtube/youtube.py:21-23, 74-75, 187): these raise in the source. The model receives counts as non-negative integers. The `isinstance(..., int)` test on line 187 is always true, so it has no branch here.
- `isodate.parse_duration` internals (youtube/youtube.py:176): a foreign library. It is the `parseDuration` parameter, and the model contains no ISO 8601 parser.
- PlayLists.TotalDuration: the result is whole seconds as a `nat`. It does not model `datetime.timedelta` (microseconds, a maximum of 999999999 days), nor the calendar `Duration` objects `isodate` returns for year or month designators.
- `Video.video_id` (youtube/youtube.py:92-95): the property returns itself and so never yields a value. It is not modelled as a getter.
- `channel_id`, `playlist_title` and `playlist_url` getters (youtube/youtube.py:45-48, 154-162): they return the fields that the datatypes expose directly.
- The stored raw responses (`self.channel`, `self.video`, `self.playlist`): only `print_info*` reads them.
- `print_info`, `print_info_v`, `print_info_pl`, `print_info_playlist_videos`, `__repr__`, `__str__` and `to_json` (youtube/youtube.py:25-29, 41-43, 50-61, 82-90, 108-116, 164-166): console output, formatting and file I/O.
- The `AbstractLog` base class and its multiple inheritance (youtube/youtube.py:119-139): they carry no behaviour.
