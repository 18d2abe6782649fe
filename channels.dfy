/** A channel snapshot (class `Youtube`) and its `+` and `>` operators. */
module Channels {
  import opened Wrappers
  import opened Responses
  import Links

  /** The right-hand operand of `+` or `>`: a channel or any other Python value. */
  datatype Operand = YoutubeOperand(channel: Youtube) | OtherOperand

  /** The attributes `Youtube.__init__` assigns; none changes afterwards. */
  datatype Youtube = Youtube(
    channelId: string,
    channelTitle: string,
    channelDescription: string,
    channelLink: string,
    subscriberCount: nat,
    videoCount: nat,
    viewCount: nat)
  {
    /** `self + other`: the combined subscriber count, or `None` when `other` is not a channel. */
    function Add(other: Operand): (r: Option<nat>)
      ensures r.Some? <==> other.YoutubeOperand?
      ensures r.Some? ==> r.value == subscriberCount + other.channel.subscriberCount
    {
      match other
      case YoutubeOperand(c) => Some(subscriberCount + c.subscriberCount)
      case OtherOperand => None
    }

    /** `self > other`: more subscribers than `other`, or `None` when `other` is not a channel. */
    function GreaterThan(other: Operand): (r: Option<bool>)
      ensures r.Some? <==> other.YoutubeOperand?
      ensures r.Some? ==> (r.value <==> subscriberCount > other.channel.subscriberCount)
    {
      match other
      case YoutubeOperand(c) => Some(subscriberCount > c.subscriberCount)
      case OtherOperand => None
    }
  }

  /**
   * `Youtube(channel_id)` given the channel lookup's response: the fields of
   * the first item, or the `IndexError` raised when the response has none.
   */
  function NewYoutube(channelId: string, response: ChannelListResponse): (r: Result<Youtube>)
    ensures r.Failure? <==> |response.items| == 0
    ensures r.Failure? ==> r.error == IndexError
    ensures r.Success? ==>
      var item := response.items[0];
      && r.value.channelId == channelId
      && Links.StripPrefix(Links.ChannelBase, r.value.channelLink) == Some(channelId)
      && r.value.channelTitle == item.title
      && r.value.channelDescription == item.description
      && r.value.subscriberCount == item.subscriberCount
      && r.value.videoCount == item.videoCount
      && r.value.viewCount == item.viewCount
  {
    if |response.items| == 0 then
      Failure(IndexError)
    else
      var item := response.items[0];
      Success(Youtube(channelId, item.title, item.description, Links.ChannelLink(channelId),
                      item.subscriberCount, item.videoCount, item.viewCount))
  }

  /** `a + b` is the same number as `b + a` for two channels, and neither channel is lost. */
  lemma AddIsCommutative(a: Youtube, b: Youtube)
    ensures a.Add(YoutubeOperand(b)) == b.Add(YoutubeOperand(a))
    ensures a.Add(YoutubeOperand(b)).value >= a.subscriberCount
    ensures a.Add(YoutubeOperand(b)).value >= b.subscriberCount
  {
  }

  /** Between channels, `>` is a strict order: irreflexive, asymmetric, transitive. */
  lemma GreaterThanIsStrictOrder(a: Youtube, b: Youtube, c: Youtube)
    ensures a.GreaterThan(YoutubeOperand(a)) == Some(false)
    ensures a.GreaterThan(YoutubeOperand(b)) == Some(true) ==> b.GreaterThan(YoutubeOperand(a)) == Some(false)
    ensures a.GreaterThan(YoutubeOperand(b)) == Some(true) && b.GreaterThan(YoutubeOperand(c)) == Some(true)
            ==> a.GreaterThan(YoutubeOperand(c)) == Some(true)
  {
  }

  /** Two channels either tie on subscribers or exactly one of them is `>` the other. */
  lemma GreaterThanTrichotomy(a: Youtube, b: Youtube)
    ensures a.subscriberCount == b.subscriberCount
            <==> a.GreaterThan(YoutubeOperand(b)) == Some(false) && b.GreaterThan(YoutubeOperand(a)) == Some(false)
  {
  }
}
