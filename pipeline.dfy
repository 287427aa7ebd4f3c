/**
 * The pipeline engine and the two wired pipelines, as the specification the
 * imperative `Bot` class is proved against: `Step` is what one stage does to
 * the context and the state, `Run` is what `processPipe` does with a whole
 * array of stages.
 */
module Pipeline {
  import opened Wrappers
  import opened Events
  import MessageStages
  import ConfirmationStages

  /** The stages index.js defines, with the arguments of the factories that build them. */
  datatype Stage =
    | FilterChannelJoins
    | CheckSpecificPrefix(prefix: string)
    | CheckUserPostLimits(validDelay: int)
    | QueueTweetWithExpiry(expiryInMS: int)
    | ConfirmMsgForTweet
    | PrintDbg
    | CheckForConfirmation
    | CheckForMessagesQueuedFromUser
    | CheckConfirmationOnLatestMessage
    | Tweet

  /** `messagePipeline`. */
  const MessagePipeline: seq<Stage> := [
    FilterChannelJoins,
    CheckSpecificPrefix(Marker),
    CheckUserPostLimits(CooldownMs),
    QueueTweetWithExpiry(ExpiryMs),
    ConfirmMsgForTweet,
    PrintDbg
  ]

  /** `tweetConfirmationPipeline`. */
  const ConfirmationPipeline: seq<Stage> := [
    PrintDbg,
    CheckForConfirmation,
    CheckForMessagesQueuedFromUser,
    CheckConfirmationOnLatestMessage,
    Tweet
  ]

  /** What a stage returns (`next`, `None` meaning a falsy return) and the state it leaves. */
  datatype StepResult = StepResult(next: Option<Params>, state: St)

  /** The stages that only read the cache and make no gateway call. */
  predicate Silent(stage: Stage)
  {
    stage.FilterChannelJoins? || stage.CheckSpecificPrefix? || stage.CheckUserPostLimits? || stage.PrintDbg?
  }

  /**
   * One stage applied to `p` in state `s`. Every stage that continues hands
   * on the context it was given, only ever appends to the effect log, and
   * only the queuing and publishing stages touch the cache.
   */
  function Step(stage: Stage, debug: bool, p: Params, s: St): (r: StepResult)
    ensures r.next.Some? ==> r.next.value == p
    ensures s.effects <= r.state.effects
    ensures Silent(stage) ==> r.state == s
    ensures !stage.QueueTweetWithExpiry? && !stage.Tweet? ==> r.state.postCache == s.postCache
  {
    match stage
    case FilterChannelJoins =>
      StepResult(MessageStages.FilterChannelJoins(p), s)
    case CheckSpecificPrefix(prefix) =>
      StepResult(MessageStages.CheckPrefix(prefix, debug, p), s)
    case CheckUserPostLimits(validDelay) =>
      StepResult(MessageStages.CheckUserPostLimits(validDelay, s.postCache, p), s)
    case QueueTweetWithExpiry(expiryInMS) =>
      if p.ActionParams? then StepResult(None, s)
      else
        var m := p.message;
        StepResult(Some(p), s.(postCache := s.postCache[m.user := MessageStages.QueuedPost(expiryInMS, m, p.now)]))
    case ConfirmMsgForTweet =>
      if p.ActionParams? then StepResult(None, s)
      else StepResult(Some(p), s.(effects := s.effects + [MessageStages.PromptFor(p.message)]))
    case PrintDbg =>
      StepResult(Some(p), s)
    case CheckForConfirmation =>
      var r := ConfirmationStages.CheckForConfirmation(p);
      if r.None? && p.ActionParams? then
        StepResult(None, s.(effects := s.effects + [ConfirmationStages.Notice(p, DeclineText)]))
      else StepResult(r, s)
    case CheckForMessagesQueuedFromUser =>
      var r := ConfirmationStages.CheckForMessagesQueuedFromUser(s.postCache, p);
      if r.None? && p.ActionParams? then
        StepResult(None, s.(effects := s.effects + [ConfirmationStages.Notice(p, NotFoundText)]))
      else StepResult(r, s)
    case CheckConfirmationOnLatestMessage =>
      var r := ConfirmationStages.CheckConfirmationOnLatestMessage(s.postCache, p);
      if r.None? && p.ActionParams? && p.user in s.postCache then
        StepResult(None, s.(effects := s.effects + [ConfirmationStages.Notice(p, StaleText)]))
      else StepResult(r, s)
    case Tweet =>
      if p.MessageParams? || p.user !in s.postCache then StepResult(None, s)
      else
        var content := s.postCache[p.user].content;
        StepResult(Some(p), St(s.postCache - {DeletedKey}, s.effects + ConfirmationStages.PublishEffects(debug, p, content)))
  }

  /**
   * The outcome of a pipeline run: how many stages ran, what the last one
   * returned (`None` when some stage stopped the run) and the final state.
   */
  datatype Trace = Trace(ran: nat, out: Option<Params>, state: St)

  /**
   * `processPipe`: the stages run in array order, each on the context the one
   * before returned, and the first stage that returns nothing ends the run.
   * A run that stops has run at least that one stage; a run that does not
   * stop has run them all and hands back its input; the effect log only grows.
   */
  function Run(pipe: seq<Stage>, debug: bool, p: Params, s: St): (t: Trace)
    ensures t.ran <= |pipe|
    ensures t.out.Some? ==> t.ran == |pipe| && t.out.value == p
    ensures t.out.None? ==> t.ran >= 1
    ensures s.effects <= t.state.effects
    decreases |pipe|
  {
    if pipe == [] then Trace(0, Some(p), s)
    else
      var r := Step(pipe[0], debug, p, s);
      if r.next.None? then Trace(1, None, r.state)
      else
        var t := Run(pipe[1..], debug, r.next.value, r.state);
        Trace(t.ran + 1, t.out, t.state)
  }

  /** A run of a non-empty array: the first stage, then the rest unless it stopped. */
  lemma RunCons(stage: Stage, rest: seq<Stage>, debug: bool, p: Params, s: St)
    ensures var r := Step(stage, debug, p, s);
      Run([stage] + rest, debug, p, s) ==
        if r.next.None? then Trace(1, None, r.state)
        else var t := Run(rest, debug, r.next.value, r.state); Trace(t.ran + 1, t.out, t.state)
  {
    assert ([stage] + rest)[0] == stage && ([stage] + rest)[1..] == rest;
  }

  /**
   * Running `a + b` is running `a` and then, only if `a` did not stop,
   * running `b` on what `a` handed on, from the state `a` left.
   */
  lemma {:induction false} RunAppend(a: seq<Stage>, b: seq<Stage>, debug: bool, p: Params, s: St)
    ensures var t := Run(a, debug, p, s);
      Run(a + b, debug, p, s) ==
        if t.out.None? then t
        else
          var u := Run(b, debug, t.out.value, t.state);
          Trace(t.ran + u.ran, u.out, u.state)
    decreases |a|
  {
    if a == [] {
      assert a + b == b;
    } else {
      var r := Step(a[0], debug, p, s);
      assert (a + b)[0] == a[0];
      if r.next.Some? {
        assert (a + b)[1..] == a[1..] + b;
        RunAppend(a[1..], b, debug, r.next.value, r.state);
      }
    }
  }

  /** Once a stage has stopped the run, no later stage runs: appended stages change nothing. */
  lemma RunStopsAtHalt(a: seq<Stage>, b: seq<Stage>, debug: bool, p: Params, s: St)
    requires Run(a, debug, p, s).out.None?
    ensures Run(a + b, debug, p, s) == Run(a, debug, p, s)
  {
    RunAppend(a, b, debug, p, s);
  }
}
