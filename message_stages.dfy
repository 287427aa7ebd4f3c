/**
 * The stages of the message pipeline as functions of the event and the cache:
 * the three guards, the record `queueTweet` stores and the prompt
 * `confirmMsgForTweet` sends.
 */
module MessageStages {
  import opened Wrappers
  import opened Text
  import opened Events
  import opened ActionIds

  /**
   * `filterChannelJoins`: stops on a channel-join notice and passes every
   * other message on unchanged. A click event has no message, so the source
   * would throw here; the model stops.
   */
  function FilterChannelJoins(p: Params): (r: Option<Params>)
    ensures p.MessageParams? ==> (r.None? <==> p.message.subtype == Some(ChannelJoin))
    ensures r.Some? ==> r.value == p
  {
    if p.ActionParams? || p.message.subtype == Some(ChannelJoin) then None else Some(p)
  }

  /**
   * `checkPrefix` as built by `checkSpecificPrefix(prefix)`: in debug mode
   * every message passes; otherwise exactly those whose text starts with
   * `prefix`.
   */
  function CheckPrefix(prefix: string, debug: bool, p: Params): (r: Option<Params>)
    ensures p.MessageParams? ==> (r.Some? <==> debug || StartsWith(p.message.text, prefix))
    ensures r.Some? ==> r.value == p
  {
    if p.ActionParams? then None
    else if debug then Some(p)
    else if !StartsWith(p.message.text, prefix) then None
    else Some(p)
  }

  /**
   * `checkSpecifiedUserPostLimits` as built by `checkUserPostLimits(validDelay)`:
   * stops exactly when the author has a cache record whose `lastPostTime` is
   * less than `validDelay` milliseconds before `now`; an author without a
   * record always passes.
   */
  function CheckUserPostLimits(validDelay: int, cache: map<UserId, PendingPost>, p: Params): (r: Option<Params>)
    ensures p.MessageParams? ==>
      (r.None? <==> p.message.user in cache && p.now - cache[p.message.user].lastPostTime < validDelay)
    ensures p.MessageParams? && p.message.user !in cache ==> r == Some(p)
    ensures r.Some? ==> r.value == p
  {
    if p.ActionParams? then None
    else
      var user := p.message.user;
      if user in cache && p.now - cache[user].lastPostTime < validDelay then None
      else Some(p)
  }

  /**
   * The text that is queued and shown in the prompt: the message text with
   * every `:twitter:` removed. It is never longer than the text, it is the
   * text itself exactly when the marker does not occur, and a text that
   * starts with the marker loses at least the marker's length.
   */
  function StripMarker(text: string): (content: string)
    ensures |content| <= |text|
    ensures content == text <==> !Occurs(text, Marker)
    ensures StartsWith(text, Marker) ==> |content| <= |text| - |Marker|
  {
    RemoveAllUnchangedIff(text, Marker);
    RemoveAllLeading(text, Marker);
    RemoveAll(text, Marker)
  }

  /**
   * Stripping does not rescan: in `:twit:twitter:ter:` the one marker is
   * removed, and the marker that removal brings together stays.
   */
  lemma StripDoesNotRescan()
    ensures StripMarker(Marker[..5] + Marker + Marker[5..]) == Marker
  {
    RemovalDoesNotRescan(Marker, Marker[..5] + Marker + Marker[5..]);
  }

  /** The record `queueTweet` (from `queueTweetWithExpiry(expiryInMS)`) stores for `m` at `now`. */
  function QueuedPost(expiryInMS: int, m: Message, now: int): (post: PendingPost)
    ensures post.id == m.ts && post.lastPostTime == now && post.expiry == now + expiryInMS
    ensures post.content == StripMarker(m.text)
  {
    PendingPost(m.ts, StripMarker(m.text), now, now + expiryInMS)
  }

  /**
   * The two buttons of the prompt for message `ts`: "yes" then "no". Each
   * one's `action_id` parses back to `ts` exactly when `ts` has no `_`.
   */
  function ConfirmationButtons(ts: string): (bs: seq<Button>)
    ensures |bs| == 2 && bs[0].value == Accept && bs[1].value == Decline
    ensures forall k :: 0 <= k < |bs| ==> (MsgIdOf(bs[k].actionId) == Some(ts) <==> '_' !in ts)
  {
    MsgIdOfActionId(ts, Accept);
    MsgIdOfActionId(ts, Decline);
    [Button(ActionId(ts, Accept), Accept), Button(ActionId(ts, Decline), Decline)]
  }

  /** The ephemeral prompt `confirmMsgForTweet` sends to the author of `m`. */
  function PromptFor(m: Message): (e: Effect)
    ensures e.Ephemeral? && e.channel == m.channel && e.user == m.user && e.text == NotifyText
    ensures e.blocks.Some? && e.blocks.value.shown == StripMarker(m.text)
    ensures e.blocks.value.buttons == ConfirmationButtons(m.ts)
  {
    Ephemeral(m.channel, m.user, NotifyText, Some(Prompt(StripMarker(m.text), ConfirmationButtons(m.ts))))
  }
}
