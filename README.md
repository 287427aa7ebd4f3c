# amplifyBot confirmation flow, modelled in Dafny

amplifyBot is a chat bot that relays chat messages to a microblog. A chat user
writes a message that starts with the marker `:twitter:`. The bot stores a
pending post for that user and replies, visible to the author alone, with a
prompt that has two buttons: "yes" and "no". A "yes" click publishes the stored
text as a status update.

This project models the whole of that logic in `index.js`:

- the pipeline engine `processPipe`;
- the process-wide `postCache`, keyed by user id;
- the six stages of `messagePipeline`: channel-join filter, marker check (bypassed in
  debug mode), one-minute cooldown, queuing, prompt, debug print;
- the five stages of `tweetConfirmationPipeline`: debug print, decline check,
  "has a queued post" check, binding of the click to the queued message, publish.

It proves what these do on every input.

Layout:

- `text.dfy` (`Text`): `startsWith`, removal of every literal occurrence of a
  pattern (what `replace(new RegExp(':twitter:', 'g'), '')` does), and
  `split` on one separator character. It includes the inverse of `split` and the
  round trips between the two.
- `action_ids.dfy` (`ActionIds`): the button `action_id`
  `tweetConfirmation_<ts>_<value>` and its parse `split('_')[1]`.
- `events.dfy` (`Events`): the events, the cache record, the gateway calls, and
  the constants of index.js.
- `message_stages.dfy`, `confirmation_stages.dfy`: the stages, as functions
  of the event and the cache.
- `pipeline.dfy` (`Pipeline`): `Step`, what one stage does, and `Run`, what
  `processPipe` does with an array of stages. It also holds the two wired arrays.
  These two functions are the specification the class below is proved against.
- `bot.dfy` (`Bot.Bot`): the imperative model. The class holds `postCache` as
  a `map` field and `effects`, an append-only log of gateway calls. It has one
  method per stage, the `processPipe` loop and the two event handlers.
- `properties.dfy` (`Properties`): what each wired pipeline does for one
  event, and facts that span several events (cooldown refresh, stale prompts,
  expiry never checked, repeated publication).
- `scenarios.dfy` (`Scenarios`): one user's conversation, event by event.

Environment and I/O:

- The clock is an integer number of milliseconds, `now`. Each event carries it,
  because every run of a pipeline is treated as atomic.
- Every call to `slackPostEphemeral` is appended to `effects` as an `Ephemeral`
  record: channel, user, text, and the prompt if there is one.
- Every call to `twitterClient.post` is appended as a `TwitterPost` record.
- The debug flag is a constant of the `Bot` object.

Behaviour of the code that is easy to misread; the model follows the code:

- Expiry is never checked. The comment at index.js:102 promises a cache that
  expires after a finite time (15 minutes by default), but the expiry stage is
  commented out (index.js:120-129).
  An expired record can still be published (`Properties.ExpiryNotConsulted`,
  `Scenarios.LateConfirmPublishesAgain`).
- Publishing does not remove the user's record. `delete postCache.userId` removes
  the literal key `"userId"` (index.js:221). So the same prompt can be confirmed, and
  published, again (`Properties.ConfirmationKeepsRecord`).
- Queuing removes only the marker. `":twitter: hello world"` is queued as
  `" hello world"`, with its leading blank (`Scenarios.StripFirst`).
- The removal does not rescan, so the queued text can still contain the marker
  (`MessageStages.StripDoesNotRescan`).
- The cooldown time is refreshed each time a post is queued (index.js:111).
  It is never updated anywhere else (`Properties.CooldownAfterQueue`).
- A click is bound to its message by `split('_')[1]`. This gives back the message
  identifier exactly when that identifier has no `_` (`ActionIds.MsgIdOfActionId`).

## Model

| member | source | states |
|---|---|---|
| `Text.RemoveAll` | index.js:66 | removing every `:twitter:` never lengthens the text |
| `Text.RemoveAllWithoutMatch` | index.js:105-106 | a text without the marker is left unchanged |
| `Text.RemoveAllWithMatch` | index.js:105-106 | a text with a marker anywhere gets strictly shorter |
| `Text.RemoveAllUnchangedIff` | index.js:105-106 | removal leaves the text unchanged if and only if the marker does not occur in it |
| `Text.RemoveAllLeading` | index.js:105-106 | a text that starts with the marker (the check at index.js:141) loses at least the marker's length when the marker is removed, here and at index.js:66 |
| `Text.Split` | index.js:198 | `split` gives at least one piece, more than one exactly when the separator occurs, and no piece contains the separator |
| `Text.SplitThenJoin` | index.js:198 | joining the pieces of `split` with the separator gives the text back |
| `Text.JoinThenSplit` | index.js:198 | splitting separator-free pieces joined by the separator gives the same pieces |
| `Text.SplitField` | index.js:198 | a separator-free field followed by the separator is split off as the first piece |
| `ActionIds.ActionId` | index.js:80-85 | `tweetConfirmation_<ts>_<value>`, as the two template strings build it: the prefix, `_`, the message ts, `_`, the button value, each at its own position |
| `ActionIds.MsgIdOf` | index.js:198 | `split('_')[1]` is defined exactly when the id contains `_`, and has no `_` itself |
| `ActionIds.MsgIdOfActionId` | index.js:80-85 | parsing `tweetConfirmation_<ts>_<value>` gives back `ts` if and only if `ts` has no `_` |
| `MessageStages.FilterChannelJoins` | index.js:45-48 | stops exactly on subtype `channel_join`, otherwise passes the context on unchanged |
| `MessageStages.CheckPrefix` | index.js:132-150 | passes exactly when in debug mode or the text starts with the prefix |
| `MessageStages.CheckUserPostLimits` | index.js:51-62 | stops exactly when the author has a record with `now - lastPostTime < validDelay`; an author without a record passes |
| `MessageStages.StripMarker` | index.js:65-66 | the queued and shown content is no longer than the text, equals it iff the marker is absent, and is at least the marker's length shorter when the text starts with it |
| `MessageStages.StripDoesNotRescan` | index.js:106 | stripping `:twit:twitter:ter:` gives `:twitter:`: the global replace does not rescan the marker a removal brings together |
| `MessageStages.QueuedPost` | index.js:107-113 | the record stored for the author: `id` is the message ts, `content` the text with every marker removed, `lastPostTime` is `now`, and `expiry` is `now` plus the expiry delay |
| `MessageStages.ConfirmationButtons` | index.js:72-96 | two buttons, "yes" then "no", whose `action_id`s parse back to the message id iff it has no `_` |
| `MessageStages.PromptFor` | index.js:64-98 | one ephemeral message to the author in the message's channel, with the fixed question, the stripped text shown, and the "yes"/"no" buttons of `ConfirmationButtons` |
| `ConfirmationStages.CheckForConfirmation` | index.js:178-184 | stops exactly when the button value is "no" |
| `ConfirmationStages.CheckForMessagesQueuedFromUser` | index.js:186-193 | stops exactly when the clicking user has no record |
| `ConfirmationStages.CheckConfirmationOnLatestMessage` | index.js:195-204 | passes exactly when the user has a record whose `id` is the id parsed from the `action_id` |
| `ConfirmationStages.Notice` | index.js:19-29 | a text-only ephemeral reply carrying the given text, sent to the clicking user in the prompt's channel (the replies at index.js:180, 189, 200 and 211) |
| `ConfirmationStages.PublishEffects` | index.js:211-218 | the publish step makes exactly one reply, first, and then exactly one status update carrying the cached content outside debug mode, none in it |
| `Pipeline.MessagePipeline` | index.js:235-242 | the six message stages in their wired order, with the marker `:twitter:`, a one-minute cooldown and a fifteen-minute expiry |
| `Pipeline.ConfirmationPipeline` | index.js:249-255 | the five click stages in their wired order, the publish step last |
| `Pipeline.Step` | index.js:45-231 | a stage that continues hands on its input; it only appends to the effect log; the guards and `printDbg` change nothing; only queuing and publishing touch the cache |
| `Pipeline.Run` | index.js:160-172 | a run executes at most all stages; a run that does not stop ran every stage and hands on its input; a stopped run ran at least one; the effect log only grows |
| `Pipeline.RunAppend` | index.js:160-172 | running `a + b` is running `a`, then `b` only if `a` did not stop |
| `Pipeline.RunStopsAtHalt` | index.js:166-169 | after a stage returns nothing no later stage runs: appended stages change nothing |
| `Properties.GuardsRun` | index.js:235-238 | the three guards change nothing and pass exactly the admitted messages |
| `Properties.ActionsRun` | index.js:239-241 | after the guards: the author's record is replaced, one prompt is sent, three stages run |
| `Properties.MessagePipelineRun` | index.js:235-246 | an admitted message runs all six stages, replaces only its author's record (id = ts, stripped content, `lastPostTime` = now, expiry = now + 900000) and sends one prompt; any other stops within the guards with no change |
| `Properties.NoMarkerNoEffects` | index.js:141-144 | outside debug mode a message without the leading marker makes no gateway call and leaves the cache alone |
| `Properties.PromptMatchesQueuedPost` | index.js:64-113 | the prompt shows exactly the queued content; its "yes" click is confirmed iff the ts has no `_`; its "no" click never is |
| `Properties.CooldownAfterQueue` | index.js:51-62 | once a post is queued at `now`, another message from the same author before `now + 60000` is not admitted and changes nothing |
| `Properties.ChecksRunBound` | index.js:249-252 | a click that is not "no" from a user with a record reaches the binding check with nothing changed |
| `Properties.ChecksRunDeclined` | index.js:178-184 | a "no" click stops at the second stage with the decline reply |
| `Properties.ChecksRunNotFound` | index.js:186-193 | a click from a user without a record stops at the third stage with the "not found" reply |
| `Properties.ChecksRunStale` | index.js:195-204 | a click bound to another message stops at the fourth stage with the "old message" reply |
| `Properties.ChecksRunConfirmed` | index.js:249-253 | a confirmed click passes the four checks without a reply |
| `Properties.ChecksRun` | index.js:249-253 | the checks hand a click on iff it is confirmed, and otherwise stop at the check that rejects it (second, third or fourth) with one reply; the cache is never touched |
| `Properties.ConfirmationPipelineRun` | index.js:249-260 | a confirmed click runs five stages, publishes the cached content and removes only the key `userId`; any other click stops at the check that rejects it with one reply and the cache is unchanged |
| `Properties.PublishesIffConfirmed` | index.js:178-223 | a status update is posted iff debug mode is off, the value is not "no", the user has a record and the parsed id equals its `id`; it carries that record's content, and exactly one is posted |
| `Properties.RepliesIgnoreClock` | index.js:178-216 | the replies (index.js:180, 189, 200, 211) and the status update (index.js:215) of a click depend on its channel and user only, never on the clock |
| `Properties.ExpiryNotConsulted` | index.js:120-129 | the outcome of a click (stages run, replies, publication, cache) does not depend on the clock, so an expired record is still published |
| `Properties.ConfirmationKeepsRecord` | index.js:221 | no click removes or changes the clicking user's record (for any user id but `userId`), so a confirmed prompt stays confirmable |
| `Properties.SupersededPromptIsStale` | index.js:195-204 | after a newer message with a different ts is queued, the older prompt's "yes" click is not confirmed (when the older ts has no `_`) and leaves the cache alone |
| `Bot.Bot.constructor` | index.js:50 | the bot starts with an empty cache and no gateway calls |
| `Bot.Bot.SlackPostEphemeral` | index.js:19-29 | appends one ephemeral message to the log, cache unchanged |
| `Bot.Bot.PostStatus` | index.js:215 | appends one status update to the log, cache unchanged |
| `Bot.Bot.QueueTweet` | index.js:103-118 | overwrites the author's record with (ts, stripped text, now, now + expiry) and leaves every other record and the log as they were |
| `Bot.Bot.ConfirmMsgForTweet` | index.js:64-100 | sends the author one prompt showing the stripped text with the two bound buttons |
| `Bot.Bot.CheckForConfirmation` | index.js:178-184 | a "no" click gets the decline reply and stops; otherwise nothing happens |
| `Bot.Bot.CheckForMessagesQueuedFromUser` | index.js:186-193 | a user without a record gets the "not found" reply and stops |
| `Bot.Bot.CheckConfirmationOnLatestMessage` | index.js:195-204 | a click not bound to the record gets the "old message" reply and stops |
| `Bot.Bot.Tweet` | index.js:206-223 | replies, publishes unless in debug mode, and removes the key `userId` from the cache |
| `Bot.Bot.RunStage` | index.js:163-165 | running a stage changes the context and state exactly as `Step` specifies |
| `Bot.Bot.ProcessPipe` | index.js:160-172 | the loop runs the stages in order, stops at the first that returns nothing, and ends in the state `Run` specifies, having run `Run`'s number of stages |
| `Bot.Bot.OnMessage` | index.js:244-246 | an admitted message replaces the author's record and sends one prompt; any other message changes nothing |
| `Bot.Bot.OnAction` | index.js:257-260 | a confirmed click publishes and removes only the key `userId`; any other click gets one reply and changes no record |
| `Scenarios.StripMarked` | index.js:105-106 | the marker followed by colon-free text is queued as that text, blanks included |
| `Scenarios.StripFirst` | index.js:105-106 | `:twitter: hello world` is queued as ` hello world` |
| `Scenarios.FirstMessageQueued` | index.js:235-242 | the first message at time 0 leaves one record and one prompt whose "yes" click is confirmed |
| `Scenarios.YesConfirmed` | index.js:195-204 | the first prompt's "yes" click is bound to the first record |
| `Scenarios.YesPublishes` | index.js:249-255 | while the first record is cached, its "yes" click publishes ` hello world` at any time and keeps the record |
| `Scenarios.ConfirmPublishes` | index.js:206-223 | confirming one second later publishes ` hello world`, and the record stays |
| `Scenarios.SecondMessageCooledDown` | index.js:51-62 | a second marked message ten seconds later stops at the cooldown and changes nothing |
| `Scenarios.LateConfirmPublishesAgain` | index.js:120-129 | a confirmation sixteen minutes after queuing, past the expiry, publishes again |

## Left out

- Client construction and environment reads (index.js:1-18, 34, 264). The debug flag is a boolean constant. In the source, any non-empty `DEBUG_MODE` string counts as true.
- The network calls inside `slackPostEphemeral` and `twitterClient.post`. Each call is a record in the effect log and always succeeds. A failing call would reject its `await` and end the run. That failure, and the status update's receipt, are not modelled.
- `console.log` and the `pipeName` argument of `processPipe`. `printDbg` only logs, so it is the identity stage.
- Block-Kit layout: the section text, button labels and styles (index.js:68-97). The prompt keeps only the content it shows and each button's `action_id` and `value`.
- `app.message` / `app.action` registration, the `/tweetConfirmation.*/` routing, `params.ack()` and server start. `OnMessage` and `OnAction` are only the pipeline runs.
- `async`/`await`: each pipeline run is one atomic step, and interleaving between runs is not modelled. The clock reads of one message run (index.js:54, 111, 112) are one value, `now`.
- Message events without `text` or without `user`, such as an edited message or a bot's message: a `Message` always has both. In the source, a message without `text` throws at the prefix check (index.js:141) outside debug mode, and at the marker removal (index.js:106) in debug mode; a message without `user` is queued under the key `"undefined"` (index.js:107-108).
- Regular expressions in general: only the literal removal of `:twitter:` is modelled.
- A stage that would throw a `TypeError` is modelled as a stage that stops the run with no effect. That happens in the source when a message stage gets a click event or the reverse, and when the binding or publish step finds no record. In the source the run also ends there and no later stage runs.
- The cache is a `map`. User ids that name a property inherited by a plain JavaScript object, such as `constructor`, behave differently in the source.
- The unused `msgId` of `tweet` (index.js:207).
