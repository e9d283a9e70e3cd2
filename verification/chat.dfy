/** One send turn of the chat window (`handleSend`): the empty-input
    guard, the user message, OCR of an attached image, the ingredient
    parse, the analysis call and the assistant reply, with OCR and the
    analyzer as oracles supplied by the caller. */
module Chat {
  import opened JsString
  import opened Nullable
  import Ingredients
  import Summary

  datatype Role = User | Assistant

  datatype Message = Message(role: Role, content: string, image: Option<string>)

  /** The component state `handleSend` writes: the message list and the
      typing indicator. */
  datatype ChatState = ChatState(messages: seq<Message>, typing: bool)

  /** What `extractTextFromImage` resolves to, or that it rejected. */
  datatype OcrOutcome = Recognized(text: string) | OcrFailed

  /** What `analyzeIngredients` resolves to, or that it threw (network
      failure, no choices in the response, reply not JSON). */
  datatype AnalyzerOutcome = Returned(analysis: Summary.Analysis) | AnalyzerFailed

  /** A call into code outside the model, in the order it is made. */
  datatype ForeignCall = RecognizeText(image: string) | AnalyzeIngredients(ingredients: seq<string>)

  /** How the promise `handleSend` returns settles: it returns early, it
      resolves after an answer was appended, or it rejects because OCR
      failed outside the `try`. */
  datatype Settlement = Ignored | Answered | Rejected

  datatype Turn = Turn(state: ChatState, calls: seq<ForeignCall>, settlement: Settlement)

  /** The one reply shown whenever the `try` block throws. The literal is
      split after "I couldn" only so that its first characters are visible
      to the verifier. */
  const Fallback: string :=
    "I couldn" + "\U{2019}t reliably infer the product\U{2019}s alignment from this input. "
    + "More context or clearer ingredient patterns may be needed."

  /** The guard `!userInput.trim() && !imageAsset`. */
  predicate Ignores(userInput: string, image: Option<string>) {
    IsBlank(userInput) && !Truthy(image)
  }

  function UserMessage(userInput: string, image: Option<string>): Message {
    Message(User, userInput, image)
  }

  function AssistantMessage(content: string): Message {
    Message(Assistant, content, None)
  }

  /** The assistant text for the analyzer's outcome: the summary, or the
      fallback when the analyzer or the summary template threw. */
  function ReplyText(outcome: AnalyzerOutcome): (content: string)
    ensures content == Fallback <==> outcome.AnalyzerFailed? || !Summary.Complete(outcome.analysis)
    ensures outcome.Returned? && Summary.Complete(outcome.analysis)
            ==> Summary.Compose(outcome.analysis) == Some(content)
  {
    match outcome
    case AnalyzerFailed => Fallback
    case Returned(a) =>
      match Summary.Compose(a)
      case None => Fallback
      case Some(summary) => SummaryIsNotFallback(a); summary
  }

  /** The `try` block on the text that is parsed: the reply text and the
      analyzer call it made. */
  function TryReply(text: string, analyze: seq<string> -> AnalyzerOutcome): (string, ForeignCall) {
    var ingredients := Ingredients.Parse(text);
    (ReplyText(analyze(ingredients)), AnalyzeIngredients(ingredients))
  }

  /** No summary reads like the fallback: a summary starts with
      "Inferred intent", the fallback with "I couldn". */
  lemma SummaryIsNotFallback(a: Summary.Analysis)
    requires Summary.Compose(a).Some?
    ensures Summary.Compose(a).value != Fallback
  {
    var s := Summary.Compose(a).value;
    var h := Summary.Header(a.inferredIntent.value);
    assert h[1] == 'n';
    assert s[1] == h[1];
    FallbackStartsWithWord();
  }

  lemma FallbackStartsWithWord()
    ensures |Fallback| > 1 && Fallback[1] == ' '
  {
  }

  /** `handleSend(userInput, imageAsset)` against the state `st`. */
  function HandleSend(st: ChatState, userInput: string, image: Option<string>,
                      ocr: string -> OcrOutcome,
                      analyze: seq<string> -> AnalyzerOutcome): (t: Turn)
    ensures t.settlement == Ignored <==> Ignores(userInput, image)
    ensures t.settlement == Ignored ==> t.state == st && t.calls == []
    ensures t.settlement != Ignored ==>
              && |t.state.messages| > |st.messages|
              && t.state.messages[..|st.messages| + 1] == st.messages + [UserMessage(userInput, image)]
    ensures t.settlement == Rejected <==>
              !Ignores(userInput, image) && Truthy(image) && ocr(image.value).OcrFailed?
    ensures t.settlement == Rejected ==>
              && t.state == ChatState(st.messages + [UserMessage(userInput, image)], true)
              && t.calls == [RecognizeText(image.value)]
    ensures t.settlement == Answered ==>
              && |t.state.messages| == |st.messages| + 2
              && t.state.messages[|st.messages| + 1].role == Assistant
              && t.state.messages[|st.messages| + 1].image == None
              && !t.state.typing
  {
    if Ignores(userInput, image) then Turn(st, [], Ignored)
    else
      var updated := st.messages + [UserMessage(userInput, image)];
      if Truthy(image) then
        match ocr(image.value)
        case OcrFailed => Turn(ChatState(updated, true), [RecognizeText(image.value)], Rejected)
        case Recognized(text) =>
          var (content, call) := TryReply(text, analyze);
          Turn(ChatState(updated + [AssistantMessage(content)], false),
               [RecognizeText(image.value), call], Answered)
      else
        var (content, call) := TryReply(userInput, analyze);
        Turn(ChatState(updated + [AssistantMessage(content)], false), [call], Answered)
  }

  /** The text the ingredient parser sees: the typed text, or the OCR text
      when an image is attached. */
  function ParsedText(userInput: string, image: Option<string>, ocr: string -> OcrOutcome): string
    requires Truthy(image) ==> ocr(image.value).Recognized?
  {
    if Truthy(image) then ocr(image.value).text else userInput
  }

  /** The foreign calls of a turn that passed the guard: OCR exactly when
      an image is attached, then one analysis of the parsed text unless OCR
      failed. */
  lemma CallsOfTurn(st: ChatState, userInput: string, image: Option<string>,
                    ocr: string -> OcrOutcome, analyze: seq<string> -> AnalyzerOutcome)
    requires !Ignores(userInput, image)
    ensures var t := HandleSend(st, userInput, image, ocr, analyze);
            if !Truthy(image) then
              t.calls == [AnalyzeIngredients(Ingredients.Parse(userInput))]
            else if ocr(image.value).OcrFailed? then
              t.calls == [RecognizeText(image.value)]
            else
              t.calls == [RecognizeText(image.value),
                          AnalyzeIngredients(Ingredients.Parse(ocr(image.value).text))]
  {
  }

  /** With an image attached the typed text only becomes the user message:
      two turns that differ only in the typed text make the same calls and
      end in the same state, except for that message's content. */
  lemma TypedTextDiscardedWithImage(st: ChatState, text1: string, text2: string, image: Option<string>,
                                    ocr: string -> OcrOutcome, analyze: seq<string> -> AnalyzerOutcome)
    requires Truthy(image)
    ensures var t1 := HandleSend(st, text1, image, ocr, analyze);
            var t2 := HandleSend(st, text2, image, ocr, analyze);
            && t1.calls == t2.calls
            && t1.settlement == t2.settlement
            && t1.state.typing == t2.state.typing
            && |t1.state.messages| == |t2.state.messages|
            && forall i :: 0 <= i < |t1.state.messages| && i != |st.messages| ==>
                 t1.state.messages[i] == t2.state.messages[i]
  {
  }

  /** A turn that was answered appends exactly the user message and one
      assistant message; its text is the summary of the analysis or, when
      anything in the `try` threw, the fallback. */
  lemma AnsweredTurn(st: ChatState, userInput: string, image: Option<string>,
                     ocr: string -> OcrOutcome, analyze: seq<string> -> AnalyzerOutcome)
    requires !Ignores(userInput, image)
    requires Truthy(image) ==> ocr(image.value).Recognized?
    ensures var t := HandleSend(st, userInput, image, ocr, analyze);
            var outcome := analyze(Ingredients.Parse(ParsedText(userInput, image, ocr)));
            && t.settlement == Answered
            && t.state.messages == st.messages + [UserMessage(userInput, image), t.state.messages[|st.messages| + 1]]
            && var reply := t.state.messages[|st.messages| + 1];
               && reply.role == Assistant && reply.image == None
               && (reply.content == Fallback <==> outcome.AnalyzerFailed? || !Summary.Complete(outcome.analysis))
               && (outcome.Returned? && Summary.Complete(outcome.analysis)
                   ==> Summary.Compose(outcome.analysis) == Some(reply.content))
  {
    var t := HandleSend(st, userInput, image, ocr, analyze);
    var text := ParsedText(userInput, image, ocr);
    var (content, call) := TryReply(text, analyze);
    assert t.state.messages == st.messages + [UserMessage(userInput, image), AssistantMessage(content)];
  }
}
