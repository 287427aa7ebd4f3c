/**
 * The correlation between a confirmation prompt and the message it answers:
 * each button's `action_id` is `tweetConfirmation_<ts>_<value>`, and a click
 * is bound back to a message by taking `split('_')[1]` of it.
 */
module ActionIds {
  import opened Wrappers
  import opened Text

  const ActionPrefix: string := "tweetConfirmation"

  /** The `action_id` of the button with `value` on the prompt for message `ts`. */
  function ActionId(ts: string, value: string): (id: string)
    ensures |id| == |ActionPrefix| + 1 + |ts| + 1 + |value|
    ensures id[..|ActionPrefix|] == ActionPrefix && id[|ActionPrefix|] == '_'
    ensures id[|ActionPrefix| + 1..|ActionPrefix| + 1 + |ts|] == ts
    ensures id[|ActionPrefix| + 1 + |ts|] == '_' && id[|ActionPrefix| + 2 + |ts|..] == value
  {
    ActionPrefix + "_" + ts + "_" + value
  }

  /** `actionId.split('_')[1]`, which is `undefined` when there is no `_`. */
  function MsgIdOf(actionId: string): (id: Option<string>)
    ensures id.Some? <==> '_' in actionId
    ensures id.Some? ==> '_' !in id.value
  {
    var parts := Split(actionId, '_');
    if |parts| > 1 then Some(parts[1]) else None
  }

  /**
   * Parsing gives back the message identifier that was built into the
   * `action_id` exactly when that identifier has no `_` in it.
   */
  lemma MsgIdOfActionId(ts: string, value: string)
    ensures MsgIdOf(ActionId(ts, value)) == Some(ts) <==> '_' !in ts
  {
    var rest := ts + "_" + value;
    assert ActionId(ts, value) == ActionPrefix + ['_'] + rest;
    assert '_' !in ActionPrefix;
    SplitField(ActionPrefix, rest, '_');
    if '_' !in ts {
      assert rest == ts + ['_'] + value;
      SplitField(ts, value, '_');
    }
  }
}
