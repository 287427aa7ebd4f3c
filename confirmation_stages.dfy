/**
 * The stages of the confirmation pipeline as functions of the click and the
 * cache: the three guards and the gateway calls of the publish step.
 */
module ConfirmationStages {
  import opened Wrappers
  import opened Events
  import opened ActionIds

  /**
   * `checkForConfirmation`: stops exactly when the clicked button's value is
   * "no". A message event has no action, so the source would throw here; the
   * model stops.
   */
  function CheckForConfirmation(p: Params): (r: Option<Params>)
    ensures p.ActionParams? ==> (r.None? <==> p.action.value == Decline)
    ensures r.Some? ==> r.value == p
  {
    if p.MessageParams? || p.action.value == Decline then None else Some(p)
  }

  /** `checkForMessagesQueuedFromUser`: stops exactly when the clicking user has no record. */
  function CheckForMessagesQueuedFromUser(cache: map<UserId, PendingPost>, p: Params): (r: Option<Params>)
    ensures p.ActionParams? ==> (r.None? <==> p.user !in cache)
    ensures r.Some? ==> r.value == p
  {
    if p.MessageParams? || p.user !in cache then None else Some(p)
  }

  /**
   * `checkConfirmationOnLatestMessage`: passes exactly when the clicking user
   * has a record and the message identifier parsed out of the `action_id` is
   * that record's `id`. Without a record the source would throw; the model
   * stops.
   */
  function CheckConfirmationOnLatestMessage(cache: map<UserId, PendingPost>, p: Params): (r: Option<Params>)
    ensures p.ActionParams? ==>
      (r.Some? <==> p.user in cache && MsgIdOf(p.action.actionId) == Some(cache[p.user].id))
    ensures r.Some? ==> r.value == p
  {
    if p.MessageParams? || p.user !in cache then None
    else if MsgIdOf(p.action.actionId) != Some(cache[p.user].id) then None
    else Some(p)
  }

  /** An ephemeral text-only reply to the clicking user in the prompt's channel. */
  function Notice(p: Params, text: string): (e: Effect)
    requires p.ActionParams?
    ensures e.Ephemeral? && e.blocks.None? && e.text == text
    ensures e.channel == p.channel && e.user == p.user
  {
    Ephemeral(p.channel, p.user, text, None)
  }

  /**
   * The gateway calls of `tweet` for `content`: the "going ahead" notice, then
   * the status update unless in debug mode.
   */
  function PublishEffects(debug: bool, p: Params, content: string): (es: seq<Effect>)
    requires p.ActionParams?
    ensures |es| == (if debug then 1 else 2) && es[0] == Notice(p, TweetingText + content)
    ensures TwitterPost(content) in es <==> !debug
    ensures forall e :: e in es && e.TwitterPost? ==> e == TwitterPost(content)
  {
    [Notice(p, TweetingText + content)] + if debug then [] else [TwitterPost(content)]
  }
}
