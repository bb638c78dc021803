/** The loading overlay's inputs and the accessible label it computes from them. */
module LoadingOverlay {
  import opened Wrappers

  /** The component's inputs. */
  datatype Inputs = Inputs(open: bool, title: string, message: Option<string>)

  /** The defaults: closed, titled 'Loading', no message. */
  const DefaultInputs: Inputs := Inputs(false, "Loading", None)

  /**
   * `ariaLabel()`: the title, followed by ': ' and the message when there is
   * a non-empty message.  The label is recomputed from whatever the inputs
   * currently are, so it is a function of them.
   */
  function AriaLabel(inputs: Inputs): (aria: string)
    ensures inputs.title <= aria
    ensures !Truthy(inputs.message) ==> aria == inputs.title
    ensures Truthy(inputs.message) ==>
              |aria| == |inputs.title| + 2 + |inputs.message.value| &&
              aria[|inputs.title|..|inputs.title| + 2] == ": " &&
              aria[|inputs.title| + 2..] == inputs.message.value
  {
    if Truthy(inputs.message) then inputs.title + ": " + inputs.message.value else inputs.title
  }

  /** With a message, the label is longer than the title, so the two cases never coincide. */
  lemma LabelShowsMessage(inputs: Inputs)
    ensures AriaLabel(inputs) == inputs.title <==> !Truthy(inputs.message)
  {
  }

  /** With the default inputs the label is 'Loading'. */
  lemma DefaultLabel()
    ensures !DefaultInputs.open
    ensures AriaLabel(DefaultInputs) == "Loading"
  {
  }

  /** Setting a message after the title recomputes the label from both. */
  lemma LabelFollowsInputs(inputs: Inputs, message: string)
    requires message != ""
    ensures AriaLabel(inputs.(message := Some(message))) == inputs.title + ": " + message
  {
  }
}
