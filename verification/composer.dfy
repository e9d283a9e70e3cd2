/** The message composer (`MessageType`): the text being typed and the
    preview of an attached image, changed by typing, picking a file,
    removing the image and pressing keys in the text area. */
module Composer {
  import opened JsString
  import opened Nullable

  /** `input` and `imagePreview` (a data URL, or null). */
  datatype ComposerState = ComposerState(input: string, preview: Option<string>)

  datatype Action =
    | Type(value: string)              // the text area's change event
    | PickFile(result: Option<string>)  // a chosen file's read ended: its data URL, or null if it failed
    | PickNone                         // the file dialog closed with no file chosen
    | RemoveImage                      // the remove button on the preview
    | KeyDown(key: string, shift: bool) // a key pressed in the text area

  /** One `onSend(input, imagePreview)` call. */
  datatype Send = Send(text: string, image: Option<string>)

  datatype Step = Step(state: ComposerState, sent: Option<Send>)

  const Empty: ComposerState := ComposerState("", None)

  /** The send button's `disabled` attribute. */
  predicate ButtonDisabled(c: ComposerState) {
    IsBlank(c.input) && !Truthy(c.preview)
  }

  /** `handleSubmit`: forwards the raw text and the preview and clears the
      composer, unless there is neither text nor image. */
  function Submit(c: ComposerState): (r: Step)
    ensures r.sent.None? <==> IsBlank(c.input) && !Truthy(c.preview)
    ensures r.sent.None? ==> r.state == c
    ensures r.sent.Some? ==> r.sent.value == Send(c.input, c.preview) && r.state == Empty
  {
    if IsBlank(c.input) && !Truthy(c.preview) then Step(c, None)
    else Step(Empty, Some(Send(c.input, c.preview)))
  }

  /** `removeImage`: drops the preview and keeps the text. */
  function Remove(c: ComposerState): (r: ComposerState)
    ensures r.preview == None && r.input == c.input
  {
    c.(preview := None)
  }

  /** The composer's reaction to one action. Only Enter without Shift
      submits; every other key leaves the state to the change event. A
      finished read sets the preview to the reader's result, which is null
      when the read failed. */
  function Apply(c: ComposerState, a: Action): (r: Step)
    ensures r.sent.Some? ==> a == KeyDown("Enter", false) && r.state == Empty
    ensures a == KeyDown("Enter", false) ==>
              if IsBlank(c.input) && !Truthy(c.preview) then r == Step(c, None)
              else r.sent == Some(Send(c.input, c.preview))
    ensures a.Type? ==> r == Step(c.(input := a.value), None)
    ensures a.PickFile? ==> r.sent.None? && r.state.input == c.input && r.state.preview == a.result
    ensures a.RemoveImage? ==> r.sent.None? && r.state.input == c.input && r.state.preview == None
    ensures a.PickNone? || (a.KeyDown? && (a.key != "Enter" || a.shift)) ==> r == Step(c, None)
  {
    match a
    case Type(value) => Step(c.(input := value), None)
    case PickFile(result) => Step(c.(preview := result), None)
    case PickNone => Step(c, None)
    case RemoveImage => Step(Remove(c), None)
    case KeyDown(key, shift) =>
      if key == "Enter" && !shift then Submit(c) else Step(c, None)
  }

  /** The send button is enabled exactly when pressing Enter forwards a
      message. */
  lemma ButtonMatchesSubmit(c: ComposerState)
    ensures !ButtonDisabled(c) <==> Apply(c, KeyDown("Enter", false)).sent.Some?
  {
  }

  /** The number of Enter-without-Shift presses among the actions. */
  function EnterPresses(actions: seq<Action>): nat {
    if actions == [] then 0
    else (if actions[0] == KeyDown("Enter", false) then 1 else 0) + EnterPresses(actions[1..])
  }

  /** A sequence of actions from `c`: the final composer and the messages
      forwarded, in order. Each forward is one Enter key without Shift, so
      there are no more forwards than such key presses. */
  function Run(c: ComposerState, actions: seq<Action>): (r: (ComposerState, seq<Send>))
    ensures |r.1| <= EnterPresses(actions) <= |actions|
    decreases |actions|
  {
    if actions == [] then (c, [])
    else
      var step := Apply(c, actions[0]);
      var rest := Run(step.state, actions[1..]);
      (rest.0, (if step.sent.Some? then [step.sent.value] else []) + rest.1)
  }

  /** Every message the composer forwards carries visible text or a
      truthy image. */
  lemma {:induction false} RunSendsAreNonEmpty(c: ComposerState, actions: seq<Action>)
    ensures forall i :: 0 <= i < |Run(c, actions).1| ==>
              !(IsBlank(Run(c, actions).1[i].text) && !Truthy(Run(c, actions).1[i].image))
    decreases |actions|
  {
    if actions != [] {
      RunSendsAreNonEmpty(Apply(c, actions[0]).state, actions[1..]);
    }
  }
}
