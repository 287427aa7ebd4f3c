/**
 * What the two wired pipelines do, run by `processPipe` over one event: when
 * the message pipeline queues a post and prompts, when a click publishes, and
 * what they leave in the cache.
 */
module Properties {
  import opened Wrappers
  import opened Text
  import opened Events
  import opened ActionIds
  import opened Pipeline
  import M = MessageStages
  import C = ConfirmationStages

  /** The message gets past the three guards of the message pipeline. */
  predicate Admitted(debug: bool, m: Message, now: int, cache: map<UserId, PendingPost>)
  {
    && m.subtype != Some(ChannelJoin)
    && (debug || StartsWith(m.text, Marker))
    && !(m.user in cache && now - cache[m.user].lastPostTime < CooldownMs)
  }

  /** The three guards of the message pipeline, in order. */
  const Guards: seq<Stage> := [FilterChannelJoins, CheckSpecificPrefix(Marker), CheckUserPostLimits(CooldownMs)]

  /** The queuing, prompting and logging stages that follow the guards. */
  const Actions: seq<Stage> := [QueueTweetWithExpiry(ExpiryMs)] + PromptAndLog
  /** The prompting and logging stages. */
  const PromptAndLog: seq<Stage> := [ConfirmMsgForTweet] + LogOnly
  /** The logging stage on its own. */
  const LogOnly: seq<Stage> := [PrintDbg]

  /** Queuing a message overwrites its author's record and hands the message on. */
  lemma QueueStep(debug: bool, m: Message, now: int, s: St)
    ensures Step(QueueTweetWithExpiry(ExpiryMs), debug, MessageParams(m, now), s) ==
      StepResult(Some(MessageParams(m, now)), s.(postCache := s.postCache[m.user := M.QueuedPost(ExpiryMs, m, now)]))
  {
  }

  /** Prompting sends the prompt for the message and hands it on. */
  lemma PromptStep(debug: bool, m: Message, now: int, s: St)
    ensures Step(ConfirmMsgForTweet, debug, MessageParams(m, now), s) ==
      StepResult(Some(MessageParams(m, now)), s.(effects := s.effects + [M.PromptFor(m)]))
  {
  }

  /** The logging stage hands everything on unchanged. */
  lemma LogRun(debug: bool, p: Params, s: St)
    ensures Run(LogOnly, debug, p, s) == Trace(1, Some(p), s)
  {
    assert LogOnly == [PrintDbg] + [];
    RunCons(PrintDbg, [], debug, p, s);
  }

  /** The guards hand the message on exactly when it is admitted, and change nothing. */
  lemma GuardsRun(debug: bool, m: Message, now: int, s: St)
    ensures var t := Run(Guards, debug, MessageParams(m, now), s);
      t.state == s && (t.out.Some? <==> Admitted(debug, m, now, s.postCache))
  {
    var p := MessageParams(m, now);
    var last := [CheckUserPostLimits(CooldownMs)];
    assert Guards == [FilterChannelJoins] + ([CheckSpecificPrefix(Marker)] + last);
    RunCons(FilterChannelJoins, [CheckSpecificPrefix(Marker)] + last, debug, p, s);
    RunCons(CheckSpecificPrefix(Marker), last, debug, p, s);
    RunCons(CheckUserPostLimits(CooldownMs), [], debug, p, s);
    assert last == [CheckUserPostLimits(CooldownMs)] + [];
  }

  /** Once admitted, the remaining stages queue the record and send the prompt. */
  lemma ActionsRun(debug: bool, m: Message, now: int, s: St)
    ensures Run(Actions, debug, MessageParams(m, now), s) ==
      Trace(3, Some(MessageParams(m, now)),
            St(s.postCache[m.user := M.QueuedPost(ExpiryMs, m, now)], s.effects + [M.PromptFor(m)]))
  {
    var p := MessageParams(m, now);
    var s1 := s.(postCache := s.postCache[m.user := M.QueuedPost(ExpiryMs, m, now)]);
    var s2 := s1.(effects := s.effects + [M.PromptFor(m)]);
    LogRun(debug, p, s2);
    PromptStep(debug, m, now, s1);
    RunCons(ConfirmMsgForTweet, LogOnly, debug, p, s1);
    QueueStep(debug, m, now, s);
    RunCons(QueueTweetWithExpiry(ExpiryMs), PromptAndLog, debug, p, s);
  }

  /**
   * The message pipeline on `m` at `now`: an admitted message runs all six
   * stages, overwrites its author's record with a fresh one and sends one
   * prompt; any other message is stopped by one of the three guards without
   * touching the state.
   */
  lemma MessagePipelineRun(debug: bool, m: Message, now: int, s: St)
    ensures var t := Run(MessagePipeline, debug, MessageParams(m, now), s);
      if Admitted(debug, m, now, s.postCache) then
        t == Trace(|MessagePipeline|, Some(MessageParams(m, now)),
                   St(s.postCache[m.user := M.QueuedPost(ExpiryMs, m, now)], s.effects + [M.PromptFor(m)]))
      else t.out.None? && t.ran <= |Guards| && t.state == s
  {
    assert MessagePipeline == Guards + Actions;
    GuardsRun(debug, m, now, s);
    RunAppend(Guards, Actions, debug, MessageParams(m, now), s);
    ActionsRun(debug, m, now, s);
  }

  /**
   * With the marker check on, a message that does not start with the marker
   * makes no gateway call and leaves the cache alone.
   */
  lemma NoMarkerNoEffects(m: Message, now: int, s: St)
    requires !StartsWith(m.text, Marker)
    ensures Run(MessagePipeline, false, MessageParams(m, now), s).state == s
  {
    MessagePipelineRun(false, m, now, s);
  }

  /**
   * After a message is queued, the prompt offers exactly the queued content,
   * its "yes" button is bound to the new record (when the message identifier
   * has no `_`) and its "no" button declines.
   */
  lemma PromptMatchesQueuedPost(debug: bool, m: Message, now: int, s: St)
    requires Admitted(debug, m, now, s.postCache)
    ensures var t := Run(MessagePipeline, debug, MessageParams(m, now), s);
      && m.user in t.state.postCache
      && |t.state.effects| == |s.effects| + 1
      && var prompt := t.state.effects[|s.effects|];
      && prompt.Ephemeral? && prompt.user == m.user && prompt.blocks.Some?
      && |prompt.blocks.value.buttons| == 2
      && prompt.blocks.value.shown == t.state.postCache[m.user].content
      && var yes := prompt.blocks.value.buttons[0];
      && var no := prompt.blocks.value.buttons[1];
      && (Confirmed(Action(yes.actionId, yes.value), m.user, t.state.postCache) <==> '_' !in m.ts)
      && !Confirmed(Action(no.actionId, no.value), m.user, t.state.postCache)
  {
    MessagePipelineRun(debug, m, now, s);
  }

  /**
   * The cooldown is refreshed on queuing: once a message is queued at `now`,
   * another from the same author less than a minute after `now` is not
   * admitted.
   */
  lemma CooldownAfterQueue(debug: bool, m: Message, now: int, m2: Message, now2: int, s: St)
    requires Admitted(debug, m, now, s.postCache)
    requires m2.user == m.user && now2 < now + CooldownMs
    ensures var t := Run(MessagePipeline, debug, MessageParams(m, now), s);
      !Admitted(debug, m2, now2, t.state.postCache)
      && Run(MessagePipeline, debug, MessageParams(m2, now2), t.state).state == t.state
  {
    MessagePipelineRun(debug, m, now, s);
    var t := Run(MessagePipeline, debug, MessageParams(m, now), s);
    MessagePipelineRun(debug, m2, now2, t.state);
  }

  /** The click gets past every check of the confirmation pipeline. */
  predicate Confirmed(a: Action, user: UserId, cache: map<UserId, PendingPost>)
  {
    a.value != Decline && user in cache && MsgIdOf(a.actionId) == Some(cache[user].id)
  }

  /** The reply to a click that does not get through: decline, nothing queued, or stale. */
  function RejectionText(a: Action, user: UserId, cache: map<UserId, PendingPost>): string
  {
    if a.value == Decline then DeclineText
    else if user !in cache then NotFoundText
    else StaleText
  }

  /** How many stages a click that does not get through runs: the check that stops it is the last. */
  function RejectedAt(a: Action, user: UserId, cache: map<UserId, PendingPost>): nat
  {
    if a.value == Decline then 2
    else if user !in cache then 3
    else 4
  }

  /** The last check on its own. */
  const LatestCheck: seq<Stage> := [CheckConfirmationOnLatestMessage]
  /** The last two checks. */
  const RecordChecks: seq<Stage> := [CheckForMessagesQueuedFromUser] + LatestCheck
  /** The last three checks. */
  const AnswerChecks: seq<Stage> := [CheckForConfirmation] + RecordChecks
  /** The four stages before the publish step, in order. */
  const Checks: seq<Stage> := [PrintDbg] + AnswerChecks

  /** The debug stage hands every click on unchanged. */
  lemma PrintDbgPasses(debug: bool, p: Params, s: St)
    ensures Step(PrintDbg, debug, p, s) == StepResult(Some(p), s)
  {
  }

  /** The answer check stops a "no" with the decline reply and passes anything else. */
  lemma AnswerCheckStep(debug: bool, p: Params, s: St)
    requires p.ActionParams?
    ensures Step(CheckForConfirmation, debug, p, s) ==
      if p.action.value == Decline then StepResult(None, St(s.postCache, s.effects + [C.Notice(p, DeclineText)]))
      else StepResult(Some(p), s)
  {
  }

  /** The record check stops a user without a record with the "not found" reply. */
  lemma RecordCheckStep(debug: bool, p: Params, s: St)
    requires p.ActionParams?
    ensures Step(CheckForMessagesQueuedFromUser, debug, p, s) ==
      if p.user !in s.postCache then StepResult(None, St(s.postCache, s.effects + [C.Notice(p, NotFoundText)]))
      else StepResult(Some(p), s)
  {
  }

  /** The binding check stops a click whose message is not the recorded one with the "old message" reply. */
  lemma LatestCheckStep(debug: bool, p: Params, s: St)
    requires p.ActionParams? && p.user in s.postCache
    ensures Step(CheckConfirmationOnLatestMessage, debug, p, s) ==
      if MsgIdOf(p.action.actionId) != Some(s.postCache[p.user].id)
      then StepResult(None, St(s.postCache, s.effects + [C.Notice(p, StaleText)]))
      else StepResult(Some(p), s)
  {
  }

  /** A declined click stops at the second check with the decline reply. */
  lemma ChecksRunDeclined(debug: bool, p: Params, s: St)
    requires p.ActionParams? && p.action.value == Decline
    ensures Run(Checks, debug, p, s) == Trace(2, None, St(s.postCache, s.effects + [C.Notice(p, DeclineText)]))
  {
    PrintDbgPasses(debug, p, s);
    RunCons(PrintDbg, AnswerChecks, debug, p, s);
    AnswerCheckStep(debug, p, s);
    RunCons(CheckForConfirmation, RecordChecks, debug, p, s);
  }

  /** A click from a user without a record stops at the third check with the "not found" reply. */
  lemma ChecksRunNotFound(debug: bool, p: Params, s: St)
    requires p.ActionParams? && p.action.value != Decline && p.user !in s.postCache
    ensures Run(Checks, debug, p, s) == Trace(3, None, St(s.postCache, s.effects + [C.Notice(p, NotFoundText)]))
  {
    PrintDbgPasses(debug, p, s);
    RunCons(PrintDbg, AnswerChecks, debug, p, s);
    AnswerCheckStep(debug, p, s);
    RunCons(CheckForConfirmation, RecordChecks, debug, p, s);
    RecordCheckStep(debug, p, s);
    RunCons(CheckForMessagesQueuedFromUser, LatestCheck, debug, p, s);
  }

  /** A click that gets past the first three checks is decided by the binding check alone. */
  lemma ChecksRunBound(debug: bool, p: Params, s: St)
    requires p.ActionParams? && p.action.value != Decline && p.user in s.postCache
    ensures var t := Run(LatestCheck, debug, p, s);
      Run(Checks, debug, p, s) == Trace(t.ran + 3, t.out, t.state)
  {
    PrintDbgPasses(debug, p, s);
    RunCons(PrintDbg, AnswerChecks, debug, p, s);
    AnswerCheckStep(debug, p, s);
    RunCons(CheckForConfirmation, RecordChecks, debug, p, s);
    RecordCheckStep(debug, p, s);
    RunCons(CheckForMessagesQueuedFromUser, LatestCheck, debug, p, s);
  }

  /** A click bound to another message than the record stops at the fourth check with the "old message" reply. */
  lemma ChecksRunStale(debug: bool, p: Params, s: St)
    requires p.ActionParams? && p.action.value != Decline && p.user in s.postCache
    requires MsgIdOf(p.action.actionId) != Some(s.postCache[p.user].id)
    ensures Run(Checks, debug, p, s) == Trace(4, None, St(s.postCache, s.effects + [C.Notice(p, StaleText)]))
  {
    ChecksRunBound(debug, p, s);
    LatestCheckStep(debug, p, s);
    RunCons(CheckConfirmationOnLatestMessage, [], debug, p, s);
    assert LatestCheck == [CheckConfirmationOnLatestMessage] + [];
  }

  /** A confirmed click gets through all four checks without a reply. */
  lemma ChecksRunConfirmed(debug: bool, p: Params, s: St)
    requires p.ActionParams? && Confirmed(p.action, p.user, s.postCache)
    ensures Run(Checks, debug, p, s) == Trace(4, Some(p), s)
  {
    ChecksRunBound(debug, p, s);
    LatestCheckStep(debug, p, s);
    RunCons(CheckConfirmationOnLatestMessage, [], debug, p, s);
    assert LatestCheck == [CheckConfirmationOnLatestMessage] + [];
  }

  /**
   * The checks hand the click on, without a reply, exactly when it is
   * confirmed; otherwise they stop with one reply. The cache is not touched.
   */
  lemma ChecksRun(debug: bool, a: Action, user: UserId, channel: string, now: int, s: St)
    ensures var p := ActionParams(a, user, channel, now);
      var t := Run(Checks, debug, p, s);
      if Confirmed(a, user, s.postCache) then t == Trace(4, Some(p), s)
      else t == Trace(RejectedAt(a, user, s.postCache), None,
                      St(s.postCache, s.effects + [C.Notice(p, RejectionText(a, user, s.postCache))]))
  {
    var p := ActionParams(a, user, channel, now);
    if a.value == Decline {
      ChecksRunDeclined(debug, p, s);
    } else if user !in s.postCache {
      ChecksRunNotFound(debug, p, s);
    } else if Confirmed(a, user, s.postCache) {
      ChecksRunConfirmed(debug, p, s);
    } else {
      ChecksRunStale(debug, p, s);
    }
  }

  /** The publish step on its own, for a user with a record. */
  lemma TweetRun(debug: bool, p: Params, s: St)
    requires p.ActionParams? && p.user in s.postCache
    ensures Run([Tweet], debug, p, s) ==
      Trace(1, Some(p), St(s.postCache - {DeletedKey}, s.effects + C.PublishEffects(debug, p, s.postCache[p.user].content)))
  {
    RunCons(Tweet, [], debug, p, s);
    assert [Tweet] + [] == [Tweet];
  }

  /**
   * The confirmation pipeline on a click by `user`: a confirmed click runs all
   * five stages, replies, publishes the cached content (unless in debug mode)
   * and removes only the key `userId` from the cache; any other click stops
   * with one reply and leaves the cache alone. The clock is never read.
   */
  lemma ConfirmationPipelineRun(debug: bool, a: Action, user: UserId, channel: string, now: int, s: St)
    ensures var p := ActionParams(a, user, channel, now);
      var t := Run(ConfirmationPipeline, debug, p, s);
      if Confirmed(a, user, s.postCache) then
        t == Trace(|ConfirmationPipeline|, Some(p),
                   St(s.postCache - {DeletedKey}, s.effects + C.PublishEffects(debug, p, s.postCache[user].content)))
      else
        t == Trace(RejectedAt(a, user, s.postCache), None,
                   St(s.postCache, s.effects + [C.Notice(p, RejectionText(a, user, s.postCache))]))
  {
    var p := ActionParams(a, user, channel, now);
    assert ConfirmationPipeline == Checks + [Tweet];
    ChecksRun(debug, a, user, channel, now, s);
    RunAppend(Checks, [Tweet], debug, p, s);
    if Confirmed(a, user, s.postCache) {
      TweetRun(debug, p, s);
    }
  }

  /** The number of status updates in an effect log. */
  function StatusUpdates(es: seq<Effect>): nat
  {
    if es == [] then 0 else (if es[0].TwitterPost? then 1 else 0) + StatusUpdates(es[1..])
  }

  /** The publish step adds one status update outside debug mode and none in it; a reply adds none. */
  lemma PublishedOnce(debug: bool, p: Params, content: string, text: string)
    requires p.ActionParams?
    ensures StatusUpdates(C.PublishEffects(debug, p, content)) == if debug then 0 else 1
    ensures StatusUpdates([C.Notice(p, text)]) == 0
  {
    var es := C.PublishEffects(debug, p, content);
    assert StatusUpdates([C.Notice(p, text)][1..]) == 0;
    if !debug {
      assert es[1..][1..] == [];
    } else {
      assert es[1..] == [];
    }
  }

  /**
   * A click leads to a status update exactly when it is confirmed and debug
   * mode is off, and then the update carries the cached content.
   */
  lemma PublishesIffConfirmed(debug: bool, a: Action, user: UserId, channel: string, now: int, s: St)
    ensures var t := Run(ConfirmationPipeline, debug, ActionParams(a, user, channel, now), s);
      var added := t.state.effects[|s.effects|..];
      && ((exists e :: e in added && e.TwitterPost?) <==> !debug && Confirmed(a, user, s.postCache))
      && (forall e :: e in added && e.TwitterPost? ==> user in s.postCache && e.status == s.postCache[user].content)
      && StatusUpdates(added) == (if !debug && Confirmed(a, user, s.postCache) then 1 else 0)
  {
    var p := ActionParams(a, user, channel, now);
    ConfirmationPipelineRun(debug, a, user, channel, now, s);
    var t := Run(ConfirmationPipeline, debug, p, s);
    if Confirmed(a, user, s.postCache) {
      var es := C.PublishEffects(debug, p, s.postCache[user].content);
      assert t.state.effects[|s.effects|..] == es;
      PublishedOnce(debug, p, s.postCache[user].content, []);
      if !debug {
        assert TwitterPost(s.postCache[user].content) in es;
      }
    } else {
      assert t.state.effects[|s.effects|..] == [C.Notice(p, RejectionText(a, user, s.postCache))];
      PublishedOnce(debug, p, [], RejectionText(a, user, s.postCache));
    }
  }

  /** The replies and the status update depend on the click's channel and user, not on the clock. */
  lemma RepliesIgnoreClock(debug: bool, p1: Params, p2: Params, content: string, text: string)
    requires p1.ActionParams? && p2.ActionParams? && p1.channel == p2.channel && p1.user == p2.user
    ensures C.Notice(p1, text) == C.Notice(p2, text)
    ensures C.PublishEffects(debug, p1, content) == C.PublishEffects(debug, p2, content)
  {
  }

  /**
   * Expiry is never consulted: the same click on the same state has the same
   * outcome whatever the clock says, so an expired record is still published.
   */
  lemma ExpiryNotConsulted(debug: bool, a: Action, user: UserId, channel: string, now1: int, now2: int, s: St)
    ensures var t1 := Run(ConfirmationPipeline, debug, ActionParams(a, user, channel, now1), s);
      var t2 := Run(ConfirmationPipeline, debug, ActionParams(a, user, channel, now2), s);
      t1.ran == t2.ran && t1.out.None? == t2.out.None? && t1.state == t2.state
  {
    var p1 := ActionParams(a, user, channel, now1);
    var p2 := ActionParams(a, user, channel, now2);
    ConfirmationPipelineRun(debug, a, user, channel, now1, s);
    ConfirmationPipelineRun(debug, a, user, channel, now2, s);
    var t1 := Run(ConfirmationPipeline, debug, p1, s);
    var t2 := Run(ConfirmationPipeline, debug, p2, s);
    if Confirmed(a, user, s.postCache) {
      var content := s.postCache[user].content;
      RepliesIgnoreClock(debug, p1, p2, content, []);
      assert t1.state.effects == s.effects + C.PublishEffects(debug, p1, content);
      assert t2.state.effects == s.effects + C.PublishEffects(debug, p2, content);
    } else {
      var text := RejectionText(a, user, s.postCache);
      RepliesIgnoreClock(debug, p1, p2, [], text);
      assert t1.state.effects == s.effects + [C.Notice(p1, text)];
      assert t2.state.effects == s.effects + [C.Notice(p2, text)];
    }
  }

  /**
   * No confirmation removes the clicking user's record (unless that user's
   * identifier is literally `userId`), so confirming the same prompt again
   * is confirmed again and publishes the same content a second time.
   */
  lemma ConfirmationKeepsRecord(debug: bool, a: Action, user: UserId, channel: string, now: int, s: St)
    requires user != DeletedKey
    ensures var t := Run(ConfirmationPipeline, debug, ActionParams(a, user, channel, now), s);
      && (user in t.state.postCache <==> user in s.postCache)
      && (user in s.postCache ==> t.state.postCache[user] == s.postCache[user])
      && (Confirmed(a, user, s.postCache) ==> Confirmed(a, user, t.state.postCache))
  {
    ConfirmationPipelineRun(debug, a, user, channel, now, s);
  }

  /**
   * A prompt superseded by a newer queued message is stale: its "yes" click
   * no longer gets through and publishes nothing.
   */
  lemma SupersededPromptIsStale(debug: bool, m1: Message, now1: int, m2: Message, now2: int, s: St,
                                channel: string, now3: int)
    requires Admitted(debug, m1, now1, s.postCache)
    requires m2.user == m1.user && m2.ts != m1.ts && '_' !in m1.ts
    requires var s1 := Run(MessagePipeline, debug, MessageParams(m1, now1), s).state;
      Admitted(debug, m2, now2, s1.postCache)
    ensures var s1 := Run(MessagePipeline, debug, MessageParams(m1, now1), s).state;
      var s2 := Run(MessagePipeline, debug, MessageParams(m2, now2), s1).state;
      var yes := M.ConfirmationButtons(m1.ts)[0];
      var t := Run(ConfirmationPipeline, debug, ActionParams(Action(yes.actionId, yes.value), m1.user, channel, now3), s2);
      !Confirmed(Action(yes.actionId, yes.value), m1.user, s2.postCache) && t.state.postCache == s2.postCache
  {
    MessagePipelineRun(debug, m1, now1, s);
    var s1 := Run(MessagePipeline, debug, MessageParams(m1, now1), s).state;
    MessagePipelineRun(debug, m2, now2, s1);
    var s2 := Run(MessagePipeline, debug, MessageParams(m2, now2), s1).state;
    var yes := M.ConfirmationButtons(m1.ts)[0];
    ConfirmationPipelineRun(debug, Action(yes.actionId, yes.value), m1.user, channel, now3, s2);
  }
}
