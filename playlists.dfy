/** A playlist snapshot (class `PlayList`) and its two aggregates. */
module PlayLists {
  import opened Wrappers
  import opened Responses
  import Links

  /**
   * The attributes `PlayList.__init__` assigns that the aggregates use. The
   * batched video lookup is made once, at construction.
   */
  datatype PlayList = PlayList(
    playlistId: string,
    playlistTitle: string,
    playlistUrl: string,
    videoResponse: VideoListResponse)

  /**
   * `PlayList(playlist_id)` given the playlist lookup's and the batched video
   * lookup's responses: `IndexError` when the playlist lookup has no item.
   */
  function NewPlayList(playlistId: string, playlist: PlaylistListResponse,
                       videoResponse: VideoListResponse): (r: Result<PlayList>)
    ensures r.Failure? <==> |playlist.items| == 0
    ensures r.Failure? ==> r.error == IndexError
    ensures r.Success? ==>
      && r.value.playlistId == playlistId
      && r.value.playlistTitle == playlist.items[0].title
      && Links.StripPrefix(Links.PlaylistBase, r.value.playlistUrl) == Some(playlistId)
      && r.value.videoResponse == videoResponse
  {
    if |playlist.items| == 0 then
      Failure(IndexError)
    else
      Success(PlayList(playlistId, playlist.items[0].title, Links.PlaylistUrl(playlistId), videoResponse))
  }

  /**
   * `total_duration`: the running sum, from zero, of every member's parsed
   * duration. `parseDuration` stands for `isodate.parse_duration`: `None`
   * is the `ISO8601Error` it raises, which ends the whole sum.
   */
  method TotalDuration(playlist: PlayList, parseDuration: string -> Option<nat>) returns (r: Result<nat>)
    ensures r.Failure? <==> !AllParse(playlist.videoResponse.items, parseDuration)
    ensures r.Failure? ==> r.error == ISO8601Error
    ensures r.Success? ==> r.value == DurationSum(playlist.videoResponse.items, parseDuration)
  {
    var items := playlist.videoResponse.items;
    var total := 0;
    for i := 0 to |items|
      invariant AllParse(items[..i], parseDuration)
      invariant total == DurationSum(items[..i], parseDuration)
    {
      var duration := parseDuration(items[i].duration);
      if duration.None? {
        return Failure(ISO8601Error);
      }
      assert items[..i + 1][..i] == items[..i];
      total := total + duration.value;
    }
    assert items[..|items|] == items;
    return Success(total);
  }

  /**
   * `show_best_video`: one pass keeping the running maximum like count,
   * from 0, replacing the chosen video only on a strictly greater count,
   * then `f'https://youtu.be/{best_video["id"]}'`. With no positive like
   * count `best_video` is still `None` and the subscript raises `TypeError`.
   */
  method ShowBestVideo(playlist: PlayList) returns (r: Result<string>)
    ensures r.Failure? <==> NoPositiveLikes(playlist.videoResponse.items)
    ensures r.Failure? ==> r.error == TypeError
    ensures forall k :: EarliestMostLiked(playlist.videoResponse.items, k)
                        ==> r == Success(Links.ShortLink(playlist.videoResponse.items[k].id))
  {
    var items := playlist.videoResponse.items;
    var bestVideo: Option<VideoResource> := None;
    var maxLikes := 0;
    ghost var best := 0;
    for i := 0 to |items|
      invariant forall j :: 0 <= j < i ==> items[j].likeCount <= maxLikes
      invariant bestVideo.None? <==> NoPositiveLikes(items[..i])
      invariant bestVideo.None? ==> maxLikes == 0
      invariant bestVideo.Some? ==>
        && best < i
        && bestVideo.value == items[best]
        && maxLikes == items[best].likeCount
        && EarliestMostLiked(items[..i], best)
    {
      if items[i].likeCount > maxLikes {
        bestVideo := Some(items[i]);
        maxLikes := items[i].likeCount;
        best := i;
      }
      assert forall j :: 0 <= j < i ==> items[..i + 1][j] == items[..i][j];
    }
    assert items[..|items|] == items;
    if bestVideo.None? {
      return Failure(TypeError);
    }
    forall k | EarliestMostLiked(items, k) ensures k == best {
      EarliestMostLikedIsUnique(items, k, best);
    }
    return Success(Links.ShortLink(bestVideo.value.id));
  }

  // ---------------------------------------------------------------------
  // Total duration: specification and its properties

  /** Every member's duration string parses. */
  ghost predicate AllParse(items: seq<VideoResource>, parseDuration: string -> Option<nat>) {
    forall i :: 0 <= i < |items| ==> parseDuration(items[i].duration).Some?
  }

  /** The sum of all members' parsed durations, in seconds. */
  function DurationSum(items: seq<VideoResource>, parseDuration: string -> Option<nat>): nat
    requires AllParse(items, parseDuration)
  {
    if items == [] then 0
    else
      var last := |items| - 1;
      assert AllParse(items[..last], parseDuration) by {
        forall i | 0 <= i < last ensures parseDuration(items[..last][i].duration).Some? {
          assert items[..last][i] == items[i];
        }
      }
      DurationSum(items[..last], parseDuration) + parseDuration(items[last].duration).value
  }

  /** An empty playlist lasts zero seconds. */
  lemma DurationSumEmpty(parseDuration: string -> Option<nat>)
    ensures AllParse([], parseDuration) && DurationSum([], parseDuration) == 0
  {
  }

  /** Durations add up across a split of the member list. */
  lemma {:induction false} DurationSumAppend(a: seq<VideoResource>, b: seq<VideoResource>,
                                             parseDuration: string -> Option<nat>)
    requires AllParse(a, parseDuration) && AllParse(b, parseDuration)
    ensures AllParse(a + b, parseDuration)
    ensures DurationSum(a + b, parseDuration) == DurationSum(a, parseDuration) + DurationSum(b, parseDuration)
  {
    assert AllParse(a + b, parseDuration) by {
      forall i | 0 <= i < |a + b| ensures parseDuration((a + b)[i].duration).Some? {
        if i < |a| { assert (a + b)[i] == a[i]; } else { assert (a + b)[i] == b[i - |a|]; }
      }
    }
    if b == [] {
      assert a + b == a;
    } else {
      var last := |b| - 1;
      var b' := b[..last];
      assert AllParse(b', parseDuration) by {
        forall i | 0 <= i < |b'| ensures parseDuration(b'[i].duration).Some? {
          assert b'[i] == b[i];
        }
      }
      DurationSumAppend(a, b', parseDuration);
      assert (a + b)[..|a + b| - 1] == a + b';
      assert (a + b)[|a + b| - 1] == b[last];
    }
  }

  /** A single member contributes its own parsed duration. */
  lemma DurationSumSingle(v: VideoResource, parseDuration: string -> Option<nat>)
    requires parseDuration(v.duration).Some?
    ensures AllParse([v], parseDuration)
    ensures DurationSum([v], parseDuration) == parseDuration(v.duration).value
  {
    assert [v][..0] == [];
  }

  /** Every slice of a list whose durations all parse has durations that all parse. */
  lemma AllParseSlice(s: seq<VideoResource>, lo: int, hi: int, parseDuration: string -> Option<nat>)
    requires AllParse(s, parseDuration) && 0 <= lo <= hi <= |s|
    ensures AllParse(s[lo..hi], parseDuration)
  {
    forall i | 0 <= i < hi - lo ensures parseDuration(s[lo..hi][i].duration).Some? {
      assert s[lo..hi][i] == s[lo + i];
    }
  }

  /** Taking member `k` out of the list takes exactly its duration out of the total. */
  lemma {:induction false} DurationSumRemove(b: seq<VideoResource>, k: int, parseDuration: string -> Option<nat>)
    requires AllParse(b, parseDuration) && 0 <= k < |b|
    ensures AllParse(b[..k] + b[k + 1..], parseDuration)
    ensures DurationSum(b, parseDuration)
            == DurationSum(b[..k] + b[k + 1..], parseDuration) + parseDuration(b[k].duration).value
    decreases |b|
  {
    var last := |b| - 1;
    var init := b[..last];
    AllParseSlice(b, 0, last, parseDuration);
    if k == last {
      assert b[..k] + b[k + 1..] == init;
    } else {
      DurationSumRemove(init, k, parseDuration);
      var rest := init[..k] + init[k + 1..];
      var removed := b[..k] + b[k + 1..];
      assert init[..k] == b[..k];
      assert init[k + 1..] + [b[last]] == b[k + 1..];
      assert removed == rest + [b[last]];
      assert init[k] == b[k];
      DurationSumSingle(b[last], parseDuration);
      DurationSumAppend(rest, [b[last]], parseDuration);
    }
  }

  /** Dropping the last element of `a` and an equal element of `b` keeps them permutations. */
  lemma MultisetRemoveBoth<T>(a: seq<T>, b: seq<T>, k: int)
    requires multiset(a) == multiset(b) && a != [] && 0 <= k < |b| && b[k] == a[|a| - 1]
    ensures multiset(a[..|a| - 1]) == multiset(b[..k] + b[k + 1..])
  {
    var x := b[k];
    assert a == a[..|a| - 1] + [x];
    assert b == b[..k] + [x] + b[k + 1..];
    assert multiset(a[..|a| - 1]) == multiset(a) - multiset{x};
    assert multiset(b[..k] + b[k + 1..]) == multiset(b) - multiset{x};
  }

  /** The total does not depend on the order in which members are listed. */
  lemma {:induction false} DurationSumPermutation(a: seq<VideoResource>, b: seq<VideoResource>,
                                                  parseDuration: string -> Option<nat>)
    requires multiset(a) == multiset(b)
    requires AllParse(a, parseDuration)
    ensures AllParse(b, parseDuration)
    ensures DurationSum(a, parseDuration) == DurationSum(b, parseDuration)
    decreases |a|
  {
    assert AllParse(b, parseDuration) by {
      forall i | 0 <= i < |b| ensures parseDuration(b[i].duration).Some? {
        assert b[i] in multiset(a);
      }
    }
    if a == [] {
      assert |b| == |multiset(b)| == 0;
    } else {
      var last := |a| - 1;
      var x := a[last];
      var a' := a[..last];
      assert x in multiset(b);
      var k :| 0 <= k < |b| && b[k] == x;
      var b' := b[..k] + b[k + 1..];
      MultisetRemoveBoth(a, b, k);
      AllParseSlice(a, 0, last, parseDuration);
      DurationSumPermutation(a', b', parseDuration);
      DurationSumRemove(b, k, parseDuration);
    }
  }

  // ---------------------------------------------------------------------
  // Best video: specification and its properties

  /** No member has a positive like count (this includes the empty list). */
  ghost predicate NoPositiveLikes(items: seq<VideoResource>) {
    forall i :: 0 <= i < |items| ==> items[i].likeCount == 0
  }

  /**
   * Member `k` is the video `show_best_video` picks: its like count is
   * positive, no member has more, and every earlier member has strictly fewer.
   */
  ghost predicate EarliestMostLiked(items: seq<VideoResource>, k: int) {
    && 0 <= k < |items|
    && items[k].likeCount > 0
    && (forall j :: 0 <= j < |items| ==> items[j].likeCount <= items[k].likeCount)
    && (forall j :: 0 <= j < k ==> items[j].likeCount < items[k].likeCount)
  }

  /** At most one member is the earliest most-liked one. */
  lemma EarliestMostLikedIsUnique(items: seq<VideoResource>, k1: int, k2: int)
    requires EarliestMostLiked(items, k1) && EarliestMostLiked(items, k2)
    ensures k1 == k2
  {
  }

  /** Some member is the earliest most-liked one exactly when some like count is positive. */
  lemma {:induction false} EarliestMostLikedExists(items: seq<VideoResource>)
    ensures !NoPositiveLikes(items) <==> exists k :: EarliestMostLiked(items, k)
  {
    if items != [] {
      var last := |items| - 1;
      var init := items[..last];
      EarliestMostLikedExists(init);
      if NoPositiveLikes(init) {
        if items[last].likeCount > 0 {
          assert EarliestMostLiked(items, last);
        } else {
          assert NoPositiveLikes(items) by {
            forall i | 0 <= i < |items| ensures items[i].likeCount == 0 {
              if i < last { assert init[i] == items[i]; }
            }
          }
        }
      } else {
        var k :| EarliestMostLiked(init, k);
        assert init[k] == items[k];
        if items[last].likeCount > items[k].likeCount {
          assert EarliestMostLiked(items, last) by {
            forall j | 0 <= j < |items| ensures items[j].likeCount <= items[last].likeCount {
              if j < last { assert init[j] == items[j]; }
            }
          }
        } else {
          assert EarliestMostLiked(items, k) by {
            forall j | 0 <= j < |items| ensures items[j].likeCount <= items[k].likeCount {
              if j < last { assert init[j] == items[j]; }
            }
            forall j | 0 <= j < k ensures items[j].likeCount < items[k].likeCount {
              assert init[j] == items[j];
            }
          }
        }
        assert !NoPositiveLikes(items) by { assert items[k].likeCount > 0; }
      }
    }
  }

  /** Of two members tied at the top like count, the later one is never picked. */
  lemma TieGoesToEarliest(items: seq<VideoResource>, i: int, j: int)
    requires 0 <= i < j < |items|
    requires items[i].likeCount == items[j].likeCount
    ensures !EarliestMostLiked(items, j)
  {
  }
}
