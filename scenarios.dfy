/**
 * One user's conversation with the bot, event by event: a marked message is
 * queued and prompted, the prompt is confirmed and published, a second
 * message inside the cooldown is ignored, and a confirmation sixteen minutes
 * later is published again because neither expiry nor removal happens.
 */
module Scenarios {
  import opened Wrappers
  import opened Text
  import opened Events
  import opened ActionIds
  import opened Pipeline
  import M = MessageStages
  import C = ConfirmationStages
  import P = Properties

  const Author: UserId := "U1"
  const Room: string := "C1"
  const First: Message := Message(None, ":twitter: hello world", Author, "1.1", Room)
  const Second: Message := Message(None, ":twitter: again", Author, "1.2", Room)
  const Yes: Action := Action(ActionId("1.1", Accept), Accept)

  /** A text made of the marker and then text without a colon is queued as that text, blanks and all. */
  lemma StripMarked(rest: string)
    requires ':' !in rest
    ensures M.StripMarker(Marker + rest) == rest
  {
    RemoveAllMatch(Marker, rest);
    RemoveAllCopies(rest, [], Marker);
    assert rest + [] == rest;
  }

  /** The marker is removed and nothing else: the leading blank stays. */
  lemma StripFirst()
    ensures M.StripMarker(First.text) == " hello world"
  {
    StripMarked(" hello world");
    assert First.text == Marker + " hello world";
  }

  /** The record the first message leaves. */
  const Record: PendingPost := PendingPost("1.1", " hello world", 0, ExpiryMs)

  /** The first message at time 0 is queued and prompted, with a "yes" button bound to it. */
  lemma FirstMessageQueued()
    ensures Run(MessagePipeline, false, MessageParams(First, 0), St(map[], [])).state ==
      St(map[Author := Record], [M.PromptFor(First)])
    ensures M.ConfirmationButtons(First.ts)[0] == Button(Yes.actionId, Yes.value)
    ensures P.Confirmed(Yes, Author, map[Author := Record])
  {
    StripFirst();
    assert StartsWith(First.text, Marker);
    P.MessagePipelineRun(false, First, 0, St(map[], []));
    MsgIdOfActionId("1.1", Accept);
  }

  /** The "yes" click of the first prompt is confirmed as long as the first record is cached. */
  lemma YesConfirmed(cache: map<UserId, PendingPost>)
    requires cache == map[Author := Record]
    ensures P.Confirmed(Yes, Author, cache)
  {
    MsgIdOfActionId("1.1", Accept);
  }

  /**
   * Confirming the first prompt, at any time, publishes " hello world" and
   * leaves the record where it was.
   */
  lemma YesPublishes(s: St, now: int)
    requires s.postCache == map[Author := Record]
    ensures var p := ActionParams(Yes, Author, Room, now);
      Run(ConfirmationPipeline, false, p, s).state ==
        St(s.postCache, s.effects + [C.Notice(p, TweetingText + " hello world"), TwitterPost(" hello world")])
  {
    var p := ActionParams(Yes, Author, Room, now);
    YesConfirmed(s.postCache);
    P.ConfirmationPipelineRun(false, Yes, Author, Room, now, s);
    assert s.postCache[Author].content == Record.content;
    assert C.PublishEffects(false, p, Record.content) == [C.Notice(p, TweetingText + Record.content), TwitterPost(Record.content)];
    assert s.postCache - {DeletedKey} == s.postCache by {
      assert Author != DeletedKey;
    }
  }

  /** Confirming one second after queuing publishes " hello world"; the record stays. */
  lemma ConfirmPublishes()
    ensures var s := St(map[Author := Record], [M.PromptFor(First)]);
      var p := ActionParams(Yes, Author, Room, 1000);
      Run(ConfirmationPipeline, false, p, s).state ==
        St(map[Author := Record], s.effects + [C.Notice(p, TweetingText + " hello world"), TwitterPost(" hello world")])
  {
    YesPublishes(St(map[Author := Record], [M.PromptFor(First)]), 1000);
  }

  /** A second marked message ten seconds after the first stops at the cooldown and changes nothing. */
  lemma SecondMessageCooledDown(s: St)
    requires s.postCache == map[Author := Record]
    ensures Run(MessagePipeline, false, MessageParams(Second, 10000), s).state == s
  {
    P.MessagePipelineRun(false, Second, 10000, s);
  }

  /**
   * Confirming again sixteen minutes after queuing, past the record's
   * expiry, publishes the same content a second time.
   */
  lemma LateConfirmPublishesAgain(s: St, now: int)
    requires s.postCache == map[Author := Record] && now == 16 * 60 * 1000
    ensures now > Record.expiry
    ensures var p := ActionParams(Yes, Author, Room, now);
      Run(ConfirmationPipeline, false, p, s).state ==
        St(s.postCache, s.effects + [C.Notice(p, TweetingText + " hello world"), TwitterPost(" hello world")])
  {
    YesPublishes(s, now);
  }
}
