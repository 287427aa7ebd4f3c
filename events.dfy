/**
 * The data the bot works on: the chat events it receives, the pending post it
 * keeps per user, the gateway calls it makes (recorded as effects) and the
 * configuration constants of index.js.
 */
module Events {
  import opened Wrappers

  type UserId = string

  /** The trigger marker, `msgTxtForTweeting`. */
  const Marker: string := ":twitter:"
  /** The message subtype of a "user joined the channel" notice. */
  const ChannelJoin: string := "channel_join"
  /** The cooldown of the wired message pipeline, one minute in milliseconds. */
  const CooldownMs: int := 1000 * 60 * 1
  /** The expiry window of the wired message pipeline, fifteen minutes in milliseconds. */
  const ExpiryMs: int := 1000 * 60 * 15
  /** The button value that declines a post. */
  const Decline: string := "no"
  /** The button value that confirms a post. */
  const Accept: string := "yes"
  /**
   * The key the publish step removes from the cache: the literal property
   * name `userId`, not the value of the variable of that name.
   */
  const DeletedKey: UserId := "userId"

  const NotifyText: string := "Want me to tweet?"
  const DeclineText: string := "Sounds good :+1:. I will ignore that."
  const NotFoundText: string := "Sorry :-(, could not find messages from you!"
  const StaleText: string := "Received confirmation on old message - ignoring"
  const TweetingText: string := "Going ahead and tweeting: "

  /** An inbound chat message; `ts` is its message identifier. */
  datatype Message = Message(subtype: Option<string>, text: string, user: UserId, ts: string, channel: string)

  /** The clicked button: its `action_id` and its `value`. */
  datatype Action = Action(actionId: string, value: string)

  /**
   * The context a pipeline runs over: a message event, or a button click by
   * `user` in the channel `channel` that contains the prompt. `now` is the
   * clock, in milliseconds, at which the event is handled.
   */
  datatype Params =
    | MessageParams(message: Message, now: int)
    | ActionParams(action: Action, user: UserId, channel: string, now: int)

  /** The cache record for one user. */
  datatype PendingPost = PendingPost(id: string, content: string, lastPostTime: int, expiry: int)

  /** A button of the confirmation prompt; only its `action_id` and `value` matter. */
  datatype Button = Button(actionId: string, value: string)

  /** The interactive part of the prompt: the content it offers and its buttons. */
  datatype Prompt = Prompt(shown: string, buttons: seq<Button>)

  /** A gateway call: an ephemeral chat message, or a status update to the microblog. */
  datatype Effect =
    | Ephemeral(channel: string, user: UserId, text: string, blocks: Option<Prompt>)
    | TwitterPost(status: string)

  /** The process state: the post cache and the log of gateway calls made so far. */
  datatype St = St(postCache: map<UserId, PendingPost>, effects: seq<Effect>)
}
