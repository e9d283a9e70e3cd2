# BhojanBytes chat core in Dafny

BhojanBytes is a browser chat UI. The user types an ingredient list or
attaches a photo of a food label. The app runs OCR on the photo, splits the
text into ingredients and sends them to a hosted language model. It then shows
a plain-text summary of the model's JSON reply. This project models the part
of the app that is its own logic, not a foreign call:

- **the send turn** (`handleSend` in `Chat.jsx`). It has the empty-input
  guard, the user message, OCR text replacing typed text when an image is
  attached, the comma-split ingredient parser, the summary template, and the
  single fallback reply when anything in the `try` throws;
- **the composer** (`MessageType.jsx`). Its state is the typed text and the
  image preview. Its actions are typing, picking a file, removing the image
  and key presses. It has a submit guard, forwards to `handleSend` on Enter,
  and clears itself after forwarding.

Everything is pure functions over immutable values. OCR
(`extractTextFromImage`) and the analyzer (`analyzeIngredients`) are oracle
parameters. OCR has type `string -> OcrOutcome` and the analyzer has type
`seq<string> -> AnalyzerOutcome`. A turn records the foreign calls it made,
in order, so "only the OCR text is parsed" is a statement about those calls.

Files and modules:

| file | module | models |
|---|---|---|
| js_string.dfy | `JsString` | `String.prototype.trim` (ECMAScript WhiteSpace and LineTerminator set), `split` on one character, `Array.prototype.join` |
| nullable.dfy | `Nullable` | string-or-null values and their JavaScript truthiness |
| ingredients.dfy | `Ingredients` | the parser `split(",").map(trim).filter(Boolean)` and the prompt line `ingredients.join(", ")` |
| summary.dfy | `Summary` | the reply shape the template reads and the summary template with its final `.trim()` |
| chat.dfy | `Chat` | `handleSend`: guard, messages, typing flag, OCR, `try`/`catch`/`finally` |
| composer.dfy | `Composer` | `MessageType`: state, actions, submit guard, send-button predicate |
| wiring.dfy | `Wiring` | `onSend={handleSend}`: what the composer forwards reaches the send turn |

Only a failure inside the `try` ends in the fallback message. In
`Chat.jsx` the OCR `await` (line 36) comes before the `try` (line 40). A failed OCR therefore rejects the promise `handleSend` returns.
The user message stays appended, no assistant message is added, and the
typing flag stays `true`. `Chat.HandleSend` models this as the `Rejected`
settlement.

## Model

| member | source | states |
|---|---|---|
| JsString.Trim | bhojanbytes/src/components/Chat.jsx:44 | the result has no whitespace at either end; it is empty exactly when the input is all whitespace; a string already trimmed is returned unchanged; it contains no character the input lacks |
| JsString.TrimIsInfix | bhojanbytes/src/components/Chat.jsx:44 | `trim` only removes whitespace before and after one infix of the input |
| JsString.TrimAroundHead | bhojanbytes/src/components/Chat.jsx:78 | on whitespace, then a trimmed head, then a tail, `trim` keeps the head whole and only trims the end of the tail |
| JsString.TrimEndKeepsPrefix | bhojanbytes/src/components/Chat.jsx:78 | `trimEnd` never cuts into a prefix that ends in a visible character |
| JsString.Split | bhojanbytes/src/components/Chat.jsx:43 | `split(",")` yields one more segment than there are commas, and no segment contains a comma |
| JsString.JoinSplit | bhojanbytes/src/components/Chat.jsx:43 | joining the segments with the separator rebuilds the input, so no character is lost by splitting |
| JsString.SplitJoin | bhojanbytes/src/components/Chat.jsx:43 | splitting a join of a non-empty list of separator-free parts returns exactly those parts (the empty list joins to "", which splits to `[""]`) |
| JsString.SplitAtSeparator | bhojanbytes/src/components/Chat.jsx:43 | the segments of a string around one separator are the segments before it followed by the segments after it |
| JsString.Join | bhojanbytes/src/lib/analyzeIngredients.js:178 | `Array.prototype.join`, with `[].join(sep)` giving ""; it has no contract of its own, and JoinLength, JoinSnoc, JoinSplit and SplitJoin state its behaviour |
| JsString.JoinLength | bhojanbytes/src/lib/analyzeIngredients.js:178 | a join is as long as all its parts plus one separator between each two neighbours |
| JsString.JoinSnoc | bhojanbytes/src/lib/analyzeIngredients.js:178 | `join` keeps the parts in order: appending a part to a non-empty list appends one separator and that part |
| Ingredients.DropEmpty | bhojanbytes/src/components/Chat.jsx:45 | `filter(Boolean)` keeps every non-empty string, keeps nothing else, and is the identity on lists without empty strings |
| Ingredients.Parse | bhojanbytes/src/components/Chat.jsx:42-45 | every ingredient is non-empty, trimmed and comma-free; each is a trimmed comma segment; every non-blank segment appears trimmed; there are at most commas + 1 |
| Ingredients.DropEmptyConcat | bhojanbytes/src/components/Chat.jsx:45 | `filter(Boolean)` keeps order and repeats: filtering two lists joined end to end gives the two filtered lists joined end to end |
| Ingredients.ParseConcat | bhojanbytes/src/components/Chat.jsx:42-45 | the ingredients of two texts joined by a comma are the ingredients of the first, in order, followed by those of the second |
| Ingredients.ParseSegment | bhojanbytes/src/components/Chat.jsx:42-45 | a text without a comma gives no ingredient when it is blank and otherwise exactly its trimmed self; with ParseConcat this fixes the parse of every text |
| Ingredients.ParseKeepsOrder | bhojanbytes/src/components/Chat.jsx:42-45 | two ingredients x and y joined by a comma parse to `[x, y]`: neither the order nor a repeated item is lost |
| Ingredients.SplitPromptLine | bhojanbytes/src/lib/analyzeIngredients.js:178 | the `", "`-joined prompt line of a non-empty list of ingredients (non-empty, trimmed, comma-free) splits on commas into the first item and each later item behind one space |
| Ingredients.PromptLine | bhojanbytes/src/lib/analyzeIngredients.js:178 | the ingredient line of the prompt, `ingredients.join(", ")`; it has no contract of its own, and SplitPromptLine and PromptLineRoundTrip state its behaviour |
| Ingredients.PromptLineRoundTrip | bhojanbytes/src/lib/analyzeIngredients.js:177-178 | parsing the `", "`-join of non-empty, trimmed, comma-free items returns the same list |
| Ingredients.ParseStable | bhojanbytes/src/components/Chat.jsx:42-45 | re-parsing the prompt line built from a parse gives the same ingredients |
| Ingredients.ParseExample | bhojanbytes/src/components/Chat.jsx:42-45 | `"a, b ,, c"` parses to `["a", "b", "c"]` |
| Summary.Section | bhojanbytes/src/components/Chat.jsx:57-77 | a section is empty exactly when its list is empty |
| Summary.SectionLines | bhojanbytes/src/components/Chat.jsx:57-77 | a non-empty section is its title line followed by one `• entry` line per entry, in list order |
| Summary.Header | bhojanbytes/src/components/Chat.jsx:52-53 | the two-line header is non-empty, starts with `I` and ends with `%`, so it is trimmed as a whole |
| Summary.Compose | bhojanbytes/src/components/Chat.jsx:51-78 | the template throws exactly when `inferred_intent` or one of the three lists is missing; otherwise the summary is trimmed and starts with the intent and confidence lines |
| Summary.SummaryShape | bhojanbytes/src/components/Chat.jsx:51-78 | the summary is the header kept whole plus the rest of the template with only its trailing whitespace removed |
| Summary.NoSectionsWhenListsEmpty | bhojanbytes/src/components/Chat.jsx:55-77 | with all three lists empty the summary is the header and the overall assessment, with no section |
| Summary.FrictionsAppear | bhojanbytes/src/components/Chat.jsx:57-63 | a non-empty `primary_conflicts` puts "Alignment frictions:" and its first bullet sign right after the assessment |
| Summary.TradeoffsAppear | bhojanbytes/src/components/Chat.jsx:65-71 | a non-empty `secondary_tradeoffs` puts "Tradeoffs:" and its first bullet sign right after the frictions section |
| Summary.UncertaintyAppears | bhojanbytes/src/components/Chat.jsx:73-77 | a non-empty `uncertainty_notes` puts "Uncertainty:" and its first bullet sign right after the tradeoffs section |
| Summary.JoinEndsWithLast | bhojanbytes/src/components/Chat.jsx:75 | the `"\n• "`-join of a non-empty list ends with its last entry |
| Summary.SummaryEndsWithNotes | bhojanbytes/src/components/Chat.jsx:73-78 | when the last note ends visibly, the summary ends with every note, in order, joined by `"\n• "` |
| Chat.SummaryIsNotFallback | bhojanbytes/src/components/Chat.jsx:95 | no summary equals the fallback text, so the reply shows which path was taken |
| Chat.Ignores | bhojanbytes/src/components/Chat.jsx:19 | the guard `!userInput.trim() && !imageAsset`; it has no contract of its own, and HandleSend and Wiring.ForwardedSendIsHandled state what it lets through |
| Chat.TryReply | bhojanbytes/src/components/Chat.jsx:40-98 | the `try` block: parse, one analysis, the reply text; it has no contract of its own, and CallsOfTurn and AnsweredTurn state its behaviour |
| Chat.ReplyText | bhojanbytes/src/components/Chat.jsx:80-98 | the reply is the fallback exactly when the analyzer threw or the template threw; otherwise it is the composed summary |
| Chat.HandleSend | bhojanbytes/src/components/Chat.jsx:18-102 | a blank input with no image changes nothing and calls nothing; otherwise the old list plus the user message is a prefix of the new list; OCR failure rejects with typing left true and only the user message added; an answered turn adds exactly one assistant message (no image) and clears typing |
| Chat.CallsOfTurn | bhojanbytes/src/components/Chat.jsx:31-48 | OCR is called exactly when an image is attached; the analyzer then gets the parse of the OCR text, or of the typed text when there is no image; it is not called after an OCR failure |
| Chat.TypedTextDiscardedWithImage | bhojanbytes/src/components/Chat.jsx:31-38 | with an image attached, two turns differing only in typed text make the same calls and end in the same state, apart from the user message's content |
| Chat.AnsweredTurn | bhojanbytes/src/components/Chat.jsx:86-98 | a completed turn is the old list plus the user message plus one assistant message, which is the fallback exactly when the analysis or template threw |
| Composer.Submit | bhojanbytes/src/components/MessageType.jsx:33-42 | nothing is forwarded and nothing changes exactly when the text is blank and there is no preview; otherwise the raw text and the preview are forwarded and both fields are cleared |
| Composer.Remove | bhojanbytes/src/components/MessageType.jsx:28-31 | removing the image clears the preview and keeps the text |
| Composer.Apply | bhojanbytes/src/components/MessageType.jsx:17-100 | only Enter without Shift forwards, and then clears the composer; an Enter on a blank text with no preview changes nothing, otherwise it forwards the raw text and the preview; typing replaces the text only; a finished read sets the preview to its result, null after a failed read; removing the image clears the preview and keeps the text; no file chosen and any other key change nothing |
| Composer.ButtonDisabled | bhojanbytes/src/components/MessageType.jsx:109 | the send button's `disabled` attribute; it has no contract of its own, and ButtonMatchesSubmit states its meaning |
| Composer.ButtonMatchesSubmit | bhojanbytes/src/components/MessageType.jsx:109 | the send button is enabled exactly when Enter would forward a message |
| Composer.Run | bhojanbytes/src/components/MessageType.jsx:94-100 | over any sequence of actions there are no more forwarded messages than Enter-without-Shift presses, and so no more than actions |
| Composer.RunSendsAreNonEmpty | bhojanbytes/src/components/MessageType.jsx:35 | every forwarded message has non-blank text or a truthy image |
| Wiring.ForwardedSendIsHandled | bhojanbytes/src/components/Chat.jsx:139 | anything the composer forwards passes `handleSend`'s guard, and the user message is the raw composer text with the preview |
| Wiring.HandleAll | bhojanbytes/src/components/Chat.jsx:139 | successive `onSend` calls, each with its own OCR and analyzer outcomes: no send, blank or not, removes or changes an earlier message |
| Wiring.HandledSendsGrow | bhojanbytes/src/components/Chat.jsx:27 | handling non-blank sends one after another, each with its own outcomes, adds at least one message per send |
| Wiring.SessionKeepsHistory | bhojanbytes/src/components/Chat.jsx:27 | over a whole composer session, each send with its own outcomes, the chat history only grows, by at least one message per forwarded send |

## Left out

- Rendering, styling, dark mode, auto-scroll, the loading animation and clipboard copy are left out. They are presentation, DOM geometry or timers.
- Local history persistence and its 50-entry cap are left out. No file of the modelled core implements them; the history sidebar only renders the list it is given.
- OCR internals are left out. `extractTextFromImage` is the oracle `ocr`, which yields a string or a failure.
- The network request and `JSON.parse` are left out. `analyzeIngredients` is the oracle `analyze`, and its error checks (lines 208-218) are the single outcome `AnalyzerFailed`. The prompt text is not modelled beyond its ingredient line (`Ingredients.PromptLine`).
- Summary.Compose: the confidence percentage `(confidence * 100).toFixed(0)` is floating-point formatting, so it is an opaque string field.
- Summary.Compose: missing scalar fields render as `undefined` in JavaScript, and undefined array entries join as "". Both are folded into the text fields.
- Summary.Compose: list fields are either arrays or missing. A non-array with a falsy `length` (a number, a boolean, an object without `length`) would render as an empty section. A non-array with a truthy `length`, such as a string, would throw. A `null` entry in `primary_conflicts` or `secondary_tradeoffs` would throw, while a `null` note in `uncertainty_notes` joins as "". None of these cases is modelled. A top-level JSON value that is not an object behaves like a reply with every field missing.
- Chat.HandleSend: overlapping sends, and a `messages` snapshot made stale by React batching, are async UI concurrency and are not modelled. `Wiring.HandleAll` assumes each turn settles before the next starts.
- `console.error` in the `catch` block is left out because it is logging only.
- Composer.Apply: the file reader's asynchronous load is one `PickFile` action carrying the reader's result, at the moment the read ends; choosing the file and starting the read change nothing. Clearing the file input element in `removeImage` is a DOM side effect.
- Strings are sequences of Unicode scalar values, not JavaScript's UTF-16 code units. `trim`, `split(",")` and `join` give the same results on well-formed text, because every whitespace character and the comma are single code units.
- Composer.Apply: submit is reached only through the Enter key. The `onSubmit` handler sits on a `div`, not a form, so clicking the send button does not reach it.
- The textarea auto-resize effect is left out because it is layout.
