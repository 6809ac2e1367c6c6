/**
 * The interview-answer feedback flow (src/ai/flows/feedback-flow.ts).
 * The prompt to the generative model is an oracle: a function from the
 * flow's input to the model's structured output.
 */
module FeedbackFlow {
  import opened Wrappers
  import JsText

  /** The flow's input. `answer` is `None` when the field is absent. */
  datatype FeedbackInput = FeedbackInput(question: string, answer: Option<string>)

  datatype FeedbackOutput = FeedbackOutput(feedback: string)

  /** The fixed reply to an answer that holds no text. */
  const NoAnswerFeedback: string :=
    "It seems you didn't provide an answer. Try speaking your response clearly when you're ready."

  /** `!input.answer?.trim()`: the answer is absent or trims to "". */
  predicate IsBlank(answer: Option<string>)
    ensures IsBlank(answer) <==> answer.None? || JsText.AllTrimmable(answer.value)
  {
    match answer
    case None => true
    case Some(a) => JsText.Trim(a) == ""
  }

  /** The body of `feedbackFlow`: the blank-answer guard, then the prompt. */
  function Feedback(input: FeedbackInput, prompt: FeedbackInput -> FeedbackOutput): (r: FeedbackOutput)
    ensures input.answer.None? || JsText.AllTrimmable(input.answer.value) ==> r == FeedbackOutput(NoAnswerFeedback)
    ensures input.answer.Some? && !JsText.AllTrimmable(input.answer.value) ==> r == prompt(input)
  {
    if IsBlank(input.answer) then FeedbackOutput(NoAnswerFeedback) else prompt(input)
  }

  /** An absent, empty or whitespace-only answer gets the fixed message. */
  lemma BlankAnswerGetsFixedMessage(input: FeedbackInput, prompt: FeedbackInput -> FeedbackOutput)
    requires input.answer.None? || JsText.AllTrimmable(input.answer.value)
    ensures Feedback(input, prompt).feedback == NoAnswerFeedback
  {
  }

  /** A blank answer never reaches the model: the prompt oracle is not consulted. */
  lemma BlankAnswerNeverPrompts(input: FeedbackInput, p1: FeedbackInput -> FeedbackOutput, p2: FeedbackInput -> FeedbackOutput)
    requires IsBlank(input.answer)
    ensures Feedback(input, p1) == Feedback(input, p2)
  {
  }

  /** An answer with a non-whitespace character is passed to the prompt, whose output comes back unchanged. */
  lemma AnswerWithTextIsPrompted(input: FeedbackInput, prompt: FeedbackInput -> FeedbackOutput, i: nat)
    requires input.answer.Some? && i < |input.answer.value| && !JsText.IsTrimmable(input.answer.value[i])
    ensures Feedback(input, prompt) == prompt(input)
  {
  }
}
