/** Rollout identifiers: `"{channel}@{channel_ref}"`, split again at the first `@`. */
module RolloutIds {

  function New(channel: string, channelRef: string): string {
    channel + "@" + channelRef
  }

  /** Index of the first `@`, or the length when there is none. */
  function FirstAt(s: string): (i: nat)
    ensures i <= |s|
    ensures forall k :: 0 <= k < i ==> s[k] != '@'
    ensures i < |s| ==> s[i] == '@'
  {
    if s == "" || s[0] == '@' then 0
    else
      1 + FirstAt(s[1..])
  }

  function Channel(id: string): string {
    id[..FirstAt(id)]
  }

  function ChannelRef(id: string): string {
    var i := FirstAt(id);
    if i < |id| then id[i + 1..] else ""
  }

  /** The first `@` of a printed identifier is the separator. */
  lemma {:induction false} FirstAtOfNew(channel: string, channelRef: string)
    requires '@' !in channel
    ensures FirstAt(New(channel, channelRef)) == |channel|
  {
    if channel != "" {
      FirstAtOfNew(channel[1..], channelRef);
      assert New(channel, channelRef)[1..] == New(channel[1..], channelRef);
    }
  }

  /** Printing then parsing gives the parts back, even when the ref itself contains `@`. */
  lemma RoundTrip(channel: string, channelRef: string)
    requires '@' !in channel
    ensures Channel(New(channel, channelRef)) == channel
    ensures ChannelRef(New(channel, channelRef)) == channelRef
  {
    var id := New(channel, channelRef);
    FirstAtOfNew(channel, channelRef);
    assert id[..|channel|] == channel && id[|channel| + 1..] == channelRef;
  }

  lemma Injective(c1: string, r1: string, c2: string, r2: string)
    requires '@' !in c1 && '@' !in c2
    requires New(c1, r1) == New(c2, r2)
    ensures c1 == c2 && r1 == r2
  {
    RoundTrip(c1, r1);
    RoundTrip(c2, r2);
  }

  /** Parsing then printing: the identity exactly on identifiers that carry an `@`. */
  lemma ReprintIff(id: string)
    ensures New(Channel(id), ChannelRef(id)) == id <==> '@' in id
  {
    var i := FirstAt(id);
    if i < |id| {
      assert id == id[..i] + "@" + id[i + 1..];
    } else {
      assert id[..i] == id;
      assert |New(Channel(id), ChannelRef(id))| == |id| + 1;
    }
  }

  /** The channel precondition cannot be dropped: a channel with `@` does not come back. */
  lemma RoundTripIff(channel: string, channelRef: string)
    ensures (Channel(New(channel, channelRef)) == channel) <==> '@' !in channel
  {
    if '@' !in channel {
      RoundTrip(channel, channelRef);
    } else {
      assert '@' !in Channel(New(channel, channelRef));
    }
  }
}
