# QuesAI quiz controller in Dafny

QuesAI is a single-page interview-practice app. The user types a topic. A text-generation
service is asked for five interview questions as a numbered list. The reply is cut into
questions. The user then answers them one at a time, gets feedback on each answer from
the same service, and moves through the set until it is finished.

This project models the part of `src/App.jsx` that is logic rather than presentation.

- **`text.dfy` (module `Text`).** The character classes `\d` and `\s` of an ECMAScript
  regular expression, and `String.prototype.trim`.
- **`parser.dfy` (module `Parser`).** The question-list parser
  `split(/\d+\.\s+/).filter(item => item.trim()).map((item, idx) => ...)`, as pure
  functions:
  - `MarkerLength` is the greedy match of the pattern at one position.
  - `SplitFrom`/`Split` is `split`.
  - `NonBlank` is the `filter`.
  - `Parse` is the whole chain.
- **`listing.dfy` (module `Listing`).** The numbered list the service is asked to return.
  It proves that such a list parses back to its own lines, renumbered.
- **`gateway.dfy` (module `Gateway`).** `askGemini` reduced to what its caller sees. How
  the request ended (`Outcome`) is an input, and the function gives back the string the
  call resolves to.
- **`quiz.dfy` (module `Quiz`).** The page state as a class `Session`, with the fields
  `topic`, `questions`, `currentIndex`, `answer`, `feedback` and `loading`. The three
  handlers are methods that update those fields:
  - `generateQuestions` becomes `GenerateQuestions`.
  - `evaluateAnswer` becomes `EvaluateAnswer`.
  - `nextQuestion` becomes `NextQuestion`.

  `Valid()` is the invariant all of them keep:
  - the index points into a non-empty question list;
  - the list is numbered by position, with trimmed non-empty questions;
  - no call is in flight between events.
- **`scenario.dfy` (module `Walkthrough`).** A whole session over a two-item list: from
  the topic, through both questions, back to the topic form.

Each `await askGemini(...)` becomes one sequential step. Its result is the parameter
`outcome`. The prompt that would have been sent is returned as `sent`: `None` when the
handler refuses a blank input before calling the service.

Two behaviours of the code are easy to miss, and the model keeps both:

- The split pattern is `\d+\.\s+`. After the period it accepts any whitespace (newlines,
  tabs, no-break spaces, ...), not only spaces.
- The service's text is replaced by `"No response from Gemini."` when it is absent and
  also when it is the empty string, because the code uses `||`.

## Model

| member | source | states |
|---|---|---|
| Text.IsSpace | src/App.jsx:50-52 | the characters `\s` matches and `trim` removes: ECMAScript's WhiteSpace set (tab, vertical tab, form feed, space, no-break space, the Unicode space separators, byte order mark) together with its LineTerminator set (line feed, carriage return, line and paragraph separators) |
| Text.IsDigit | src/App.jsx:50 | `\d` matches the ASCII digits 0-9 only |
| Text.Trim | src/App.jsx:51-52 | `trim` leaves a result with no whitespace at either end, and it is empty exactly when the input is all whitespace |
| Text.TrimPadded | src/App.jsx:51-52 | `trim` of any whitespace, then a trimmed text, then any whitespace is that text: trim removes the surrounding whitespace and nothing else |
| Text.TrimTrimmed | src/App.jsx:52 | trimming an already trimmed text changes nothing |
| Text.DigitRun | src/App.jsx:50 | the greedy `\d+` run: all digits, and it stops only at a non-digit or the end |
| Text.SpaceRun | src/App.jsx:50 | the greedy `\s+` run: all whitespace, and it stops only at a non-space or the end |
| Text.TrailRun | src/App.jsx:52 | the whitespace `trim` removes at the end: all whitespace, and it stops only at a non-space or the start |
| Parser.MarkerLength | src/App.jsx:50 | the match of `/\d+\.\s+/` at a position is the whole digit run, the period and the whole whitespace run after it; a length of 0 means no prefix of any length matches |
| Parser.SplitFrom | src/App.jsx:50 | `split` always yields at least one piece |
| Parser.Split | src/App.jsx:50 | `split` of the whole reply yields at least one piece, and the empty reply gives the single empty piece |
| Parser.MarkersFrom | src/App.jsx:50 | every stretch `split` removes matches the pattern |
| Parser.SplitWeave | src/App.jsx:50 | `split` loses only the matches: there is one more piece than matches, and pieces and matches interleaved give back the text |
| Parser.SplitCuts | src/App.jsx:50 | the converse: a text built from pieces with whole matches between them, no match starting inside a piece, splits into exactly those pieces. Together with `SplitWeave` this pins `split` down |
| Parser.SplitSkip | src/App.jsx:50 | where no match starts, scanning only extends the current piece |
| Parser.NonBlank | src/App.jsx:51 | the `filter` keeps the pieces whose trim is non-empty and only those, and no more pieces than it was given |
| Parser.NonBlankAppend | src/App.jsx:51 | the `filter` keeps order and multiplicity: filtering a concatenation is the concatenation of the filtered parts. With `NonBlankOne` on single pieces, this fixes the filter completely |
| Parser.NonBlankOne | src/App.jsx:51 | a single piece is kept exactly when its trim is non-empty |
| Parser.Parse | src/App.jsx:49-52 | the parsed list has at most one entry per piece, numbered 1..k by position, and every question is non-empty and trimmed |
| Parser.ParseUnmarked | src/App.jsx:50-52 | text in which the pattern matches nowhere parses to `[]` when blank, and otherwise to one question: the trimmed text, numbered 1 |
| Parser.DigitFreeUnmarked | src/App.jsx:50 | the pattern cannot match in text without a digit |
| Listing.SplitRender | src/App.jsx:46-50 | `split` of a numbered list of plain lines gives an empty first piece, then each line's text followed by the newline that ended it |
| Listing.ParseRender | src/App.jsx:46-52 | round trip: a numbered list ("1. ...", "2. ...", one per line) of plain texts parses to exactly those texts, numbered from 1 whatever numbers the list carried |
| Listing.ParseTwoLines | src/App.jsx:49-52 | a two-line numbered list parses to its two texts, numbered 1 and 2 |
| Listing.ParseTwoQuestions | src/App.jsx:49-52 | `"1. What is AI?\n2. What is ML?"` parses to questions 1 "What is AI?" and 2 "What is ML?" |
| Listing.DigitFreePlain | src/App.jsx:50-52 | a non-empty, trimmed, digit-free text is plain, so it can be a line of a numbered list that parses back to it |
| Listing.ExampleRendered | src/App.jsx:46 | the numbered list of "What is AI?" and "What is ML?" tagged 1 and 2 is the text `"1. What is AI?\n2. What is ML?"` |
| Listing.ExampleParsed | src/App.jsx:49-52 | that list parses to questions 1 "What is AI?" and 2 "What is ML?" |
| Gateway.Ask | src/App.jsx:8-27 | the call never fails and never resolves to the empty string. A non-empty extracted text comes back verbatim. A missing or empty text gives "No response from Gemini.", and a thrown error gives "Error contacting Gemini API." |
| Quiz.ParseFallback | src/App.jsx:22-25 | either fallback string, once parsed, is one question numbered 1 whose text is the fallback itself |
| Quiz.UnmarkedTrimmedParsed | src/App.jsx:49-52 | a non-empty, trimmed, digit-free reply is one question, the reply itself |
| Quiz.GenerationPrompt | src/App.jsx:46 | the generation request is the fixed opening "Generate 5 simple AI interview questions about ", then the topic verbatim, then the fixed close ". Return as a numbered list.", each at its stated offset |
| Quiz.EvaluationPrompt | src/App.jsx:65 | the evaluation request is the fixed opening `Evaluate this answer: "`, the answer verbatim, the fixed middle `" for the question: "`, the current question verbatim, and the fixed close `". Provide short constructive feedback.`, each at its stated offset |
| Quiz.Session.constructor | src/App.jsx:30-35 | the initial state has no topic, no questions, index 0, no answer, no feedback, nothing loading, and shows the topic form |
| Quiz.Session.EditTopic | src/App.jsx:134 | typing in the topic field sets the topic and keeps the invariant |
| Quiz.Session.EditAnswer | src/App.jsx:157 | typing in the answer field sets the answer and keeps the invariant |
| Quiz.Session.GenerateQuestions | src/App.jsx:42-59 | blank topic: nothing is sent and no state changes. Otherwise: the generation prompt is sent, the parsed reply replaces the list, and the index, answer and feedback are reset. The invariant holds afterwards, with loading false, and the topic form shows only if the reply held no question |
| Quiz.Session.Restart | src/App.jsx:54-58 | the five setters that end a generation: new list, index 0, empty answer and feedback, loading false |
| Quiz.Session.EvaluateAnswer | src/App.jsx:61-69 | blank answer: nothing is sent and the feedback is unchanged. Otherwise: the prompt naming the answer and the current question is sent, the reply becomes the feedback verbatim, and the page shows the review. Questions, index and answer never change, and the invariant holds. It is called only while a question is shown (the guard at line 147) |
| Quiz.Session.NextQuestion | src/App.jsx:71-76 | answer and feedback are cleared. If there is a next question, the index rises by exactly one and the list is kept. Otherwise the list is emptied and the topic form returns. The caption "Finish Quiz" (line 173) was shown exactly when the list ends up empty, and the invariant holds |
| Quiz.Session.ShownNumber | src/App.jsx:150 | the number in the heading above the current question is its position counted from 1 |
| Quiz.Session.Screen | src/App.jsx:127-166 | which part of the page shows: the topic form while there are no questions (line 127), the current question otherwise (line 147), and below it the feedback with the button to go on once the feedback is non-empty (line 166) |
| Quiz.Session.AdvanceLabel | src/App.jsx:173 | the button caption is "Next Question" while a later question exists, and "Finish Quiz" on the last one |
| Walkthrough.TwoQuestionSession | src/App.jsx:42-76 | a whole session over a two-item numbered list yields the list's texts as questions 1 and 2, shows the first review verbatim, and ends on the topic form |
| Walkthrough.ListParsed | src/App.jsx:46-52 | a two-line list is non-empty and parses to its two texts |

## Left out

- The HTTP request, the JSON decoding, the request headers and the API key (src/App.jsx:6, 10-21). How a call ended is an input (`Outcome`), not something the model computes.
- The `text` field of the JSON could hold a non-string truthy value, which the code would pass on as is. `Outcome` only carries strings, so the model cannot express what follows: `q.split` at line 50 would throw, and `generateQuestions` would stop with `loading` left `true`.
- `console.error` and the two `alert` calls. A refused input is modelled as "nothing sent, no state change".
- Overlapping calls, and the value of `loading` while a call is in flight. Both belong to the browser's event loop. Each handler runs to completion as one step, so `loading` is false between events.
- The prompts (src/App.jsx:46, 65) are only returned as `sent`. Their fixed parts and the user's text inside them are stated, but the model says nothing about how the service reads them.
- Rendering, the particle background, the card animations, the About section and the scroll handler (src/App.jsx:38-40, 78-226). `Screen` only records which form the page shows, read off the state as the JSX conditions at lines 127, 147 and 166 do.
- Strings are sequences of Unicode code points, while the code works on UTF-16 code units. Every character that `\s`, `\d` and `trim` test for lies in the Basic Multilingual Plane, so the two agree on them. Surrogate pairs are not modelled.
- Listing.ParseRender: the round trip is proved only for "plain" lines. A line that contains a digit, a period and then whitespace (for example one ending in "Python 3." before the newline) is cut there by the code. `Parse` models that cut, but no lemma states it.
