/**
 * The bot as index.js runs it: one object holding the process-wide post
 * cache, with a method per pipeline stage that reads and updates it, the
 * `processPipe` loop, and the two event handlers. Every gateway call is
 * recorded by appending to `effects`.
 */
module Bot {
  import opened Wrappers
  import opened Events
  import opened Pipeline
  import M = MessageStages
  import C = ConfirmationStages
  import P = Properties

  class Bot {
    /** The debug flag: bypasses the marker check and suppresses the status update. */
    const debugMode: bool
    /** `postCache`: the pending post of each user. */
    var postCache: map<UserId, PendingPost>
    /** The gateway calls made so far, oldest first. */
    var effects: seq<Effect>

    constructor (debugMode: bool)
      ensures this.debugMode == debugMode && postCache == map[] && effects == []
    {
      this.debugMode := debugMode;
      postCache := map[];
      effects := [];
    }

    /** The state the pipeline specification speaks about. */
    function State(): St
      reads this
    {
      St(postCache, effects)
    }

    /** `slackPostEphemeral`: one ephemeral message to `user` in `channel`. */
    method SlackPostEphemeral(channel: string, user: UserId, text: string, blocks: Option<Prompt>)
      modifies this
      ensures effects == old(effects) + [Ephemeral(channel, user, text, blocks)]
      ensures postCache == old(postCache)
    {
      effects := effects + [Ephemeral(channel, user, text, blocks)];
    }

    /** `twitterClient.post('statuses/update', {status})`: one status update. */
    method PostStatus(status: string)
      modifies this
      ensures effects == old(effects) + [TwitterPost(status)]
      ensures postCache == old(postCache)
    {
      effects := effects + [TwitterPost(status)];
    }

    /**
     * `queueTweet`: overwrites the author's record with the stripped text,
     * the message identifier, `now` as the cooldown time and `now + expiryInMS`
     * as the expiry; every other user's record is left as it was.
     */
    method QueueTweet(expiryInMS: int, params: Params) returns (next: Option<Params>)
      modifies this
      ensures params.MessageParams? ==>
        next == Some(params) &&
        postCache == old(postCache)[params.message.user := M.QueuedPost(expiryInMS, params.message, params.now)]
      ensures params.ActionParams? ==> next == None && postCache == old(postCache)
      ensures effects == old(effects)
    {
      if params.ActionParams? {
        return None;
      }
      var m := params.message;
      var msgToTweet := M.StripMarker(m.text);
      postCache := postCache[m.user := PendingPost(m.ts, msgToTweet, params.now, params.now + expiryInMS)];
      next := Some(params);
    }

    /** `confirmMsgForTweet`: sends the author the prompt with its two buttons. */
    method ConfirmMsgForTweet(params: Params) returns (next: Option<Params>)
      modifies this
      ensures params.MessageParams? ==>
        next == Some(params) && effects == old(effects) + [M.PromptFor(params.message)]
      ensures params.ActionParams? ==> next == None && effects == old(effects)
      ensures postCache == old(postCache)
    {
      if params.ActionParams? {
        return None;
      }
      var m := params.message;
      var msgToTweet := M.StripMarker(m.text);
      SlackPostEphemeral(m.channel, m.user, NotifyText, Some(Prompt(msgToTweet, M.ConfirmationButtons(m.ts))));
      next := Some(params);
    }

    /** `checkForConfirmation`: a "no" click is answered and stops the run. */
    method CheckForConfirmation(params: Params) returns (next: Option<Params>)
      modifies this
      ensures next == C.CheckForConfirmation(params)
      ensures effects == if next.None? && params.ActionParams? then old(effects) + [C.Notice(params, DeclineText)]
                         else old(effects)
      ensures postCache == old(postCache)
    {
      next := C.CheckForConfirmation(params);
      if next.None? && params.ActionParams? {
        SlackPostEphemeral(params.channel, params.user, DeclineText, None);
      }
    }

    /** `checkForMessagesQueuedFromUser`: a click from a user without a record is answered and stops the run. */
    method CheckForMessagesQueuedFromUser(params: Params) returns (next: Option<Params>)
      modifies this
      ensures next == C.CheckForMessagesQueuedFromUser(old(postCache), params)
      ensures effects == if next.None? && params.ActionParams? then old(effects) + [C.Notice(params, NotFoundText)]
                         else old(effects)
      ensures postCache == old(postCache)
    {
      next := C.CheckForMessagesQueuedFromUser(postCache, params);
      if next.None? && params.ActionParams? {
        SlackPostEphemeral(params.channel, params.user, NotFoundText, None);
      }
    }

    /**
     * `checkConfirmationOnLatestMessage`: a click whose `action_id` does not
     * carry the record's message identifier is answered and stops the run.
     */
    method CheckConfirmationOnLatestMessage(params: Params) returns (next: Option<Params>)
      modifies this
      ensures next == C.CheckConfirmationOnLatestMessage(old(postCache), params)
      ensures effects == if next.None? && params.ActionParams? && params.user in old(postCache)
                         then old(effects) + [C.Notice(params, StaleText)]
                         else old(effects)
      ensures postCache == old(postCache)
    {
      next := C.CheckConfirmationOnLatestMessage(postCache, params);
      if next.None? && params.ActionParams? && params.user in postCache {
        SlackPostEphemeral(params.channel, params.user, StaleText, None);
      }
    }

    /**
     * `tweet`: tells the user, publishes the cached content unless in debug
     * mode, and then deletes the key `userId`, which leaves the user's own
     * record in place.
     */
    method Tweet(params: Params) returns (next: Option<Params>)
      modifies this
      ensures params.ActionParams? && params.user in old(postCache) ==>
        && next == Some(params)
        && postCache == old(postCache) - {DeletedKey}
        && effects == old(effects) + C.PublishEffects(debugMode, params, old(postCache)[params.user].content)
      ensures !(params.ActionParams? && params.user in old(postCache)) ==>
        next == None && postCache == old(postCache) && effects == old(effects)
    {
      if params.MessageParams? || params.user !in postCache {
        return None;
      }
      var postInfo := postCache[params.user];
      SlackPostEphemeral(params.channel, params.user, TweetingText + postInfo.content, None);
      if !debugMode {
        PostStatus(postInfo.content);
      }
      postCache := postCache - {DeletedKey};
      next := Some(params);
    }

    /** Runs one stage, as `Step` specifies. */
    method RunStage(stage: Stage, params: Params) returns (next: Option<Params>)
      modifies this
      ensures StepResult(next, State()) == Step(stage, debugMode, params, old(State()))
    {
      match stage
      case FilterChannelJoins =>
        next := M.FilterChannelJoins(params);
      case CheckSpecificPrefix(prefix) =>
        next := M.CheckPrefix(prefix, debugMode, params);
      case CheckUserPostLimits(validDelay) =>
        next := M.CheckUserPostLimits(validDelay, postCache, params);
      case QueueTweetWithExpiry(expiryInMS) =>
        next := QueueTweet(expiryInMS, params);
      case ConfirmMsgForTweet =>
        next := ConfirmMsgForTweet(params);
      case PrintDbg =>
        next := Some(params);
      case CheckForConfirmation =>
        next := CheckForConfirmation(params);
      case CheckForMessagesQueuedFromUser =>
        next := CheckForMessagesQueuedFromUser(params);
      case CheckConfirmationOnLatestMessage =>
        next := CheckConfirmationOnLatestMessage(params);
      case Tweet =>
        next := Tweet(params);
    }

    /**
     * `processPipe`: runs the stages in order on the context, each on what
     * the previous one returned, and returns as soon as one returns nothing.
     * `ran` is the number of stages that ran; the new state is the one `Run`
     * specifies.
     */
    method ProcessPipe(pipe: seq<Stage>, params: Params) returns (ran: nat)
      modifies this
      ensures var t := Run(pipe, debugMode, params, old(State()));
        ran == t.ran && postCache == t.state.postCache && effects == t.state.effects
    {
      var cur := params;
      ran := 0;
      while ran < |pipe|
        invariant ran <= |pipe|
        invariant var t := Run(pipe[ran..], debugMode, cur, State());
          Run(pipe, debugMode, params, old(State())) == Trace(ran + t.ran, t.out, t.state)
      {
        assert pipe[ran..] == [pipe[ran]] + pipe[ran + 1..];
        RunCons(pipe[ran], pipe[ran + 1..], debugMode, cur, State());
        var next := RunStage(pipe[ran], cur);
        ran := ran + 1;
        if next.None? {
          return;
        }
        cur := next.value;
      }
    }

    /**
     * The `app.message` handler: runs the message pipeline. An admitted
     * message replaces its author's record and sends one prompt; any other
     * message changes nothing.
     */
    method OnMessage(m: Message, now: int) returns (ran: nat)
      modifies this
      ensures P.Admitted(debugMode, m, now, old(postCache)) ==>
        && ran == |MessagePipeline|
        && postCache == old(postCache)[m.user := M.QueuedPost(ExpiryMs, m, now)]
        && effects == old(effects) + [M.PromptFor(m)]
      ensures !P.Admitted(debugMode, m, now, old(postCache)) ==>
        ran <= 3 && postCache == old(postCache) && effects == old(effects)
    {
      P.MessagePipelineRun(debugMode, m, now, State());
      ran := ProcessPipe(MessagePipeline, MessageParams(m, now));
    }

    /**
     * The `app.action` handler (after the acknowledgement): runs the
     * confirmation pipeline. A confirmed click publishes the cached content
     * and leaves the user's record in place; any other click gets one reply
     * and changes no record.
     */
    method OnAction(a: Action, user: UserId, channel: string, now: int) returns (ran: nat)
      modifies this
      ensures P.Confirmed(a, user, old(postCache)) ==>
        && ran == |ConfirmationPipeline|
        && postCache == old(postCache) - {DeletedKey}
        && effects == old(effects) + C.PublishEffects(debugMode, ActionParams(a, user, channel, now), old(postCache)[user].content)
      ensures !P.Confirmed(a, user, old(postCache)) ==>
        && postCache == old(postCache)
        && effects == old(effects) + [Ephemeral(channel, user, P.RejectionText(a, user, old(postCache)), None)]
    {
      P.ConfirmationPipelineRun(debugMode, a, user, channel, now, State());
      ran := ProcessPipe(ConfirmationPipeline, ActionParams(a, user, channel, now));
    }
  }
}
