# Diskarte.ai career-assistant chat: a Dafny model

The application is a single-page chat. The user talks to a simulated career
assistant. The model covers two parts of it:

- **The conversation state of the `App` component.** It holds the transcript,
  the text in the input box and the loading flag. The handlers that change
  this state are `onChange`, `handleSend`, `handleKeyPress` and
  `handleQuickReply`. There are also the delayed callbacks that append the
  assistant's canned replies.
- **The `ChatMessage` renderer.** It is a pure function from a message to
  what the message shows:
  - the side and the avatar;
  - the body, which is either a verbatim block or, for list messages, one
    bullet item or paragraph per line;
  - one quick-reply control per offered reply.

The model is split into three modules:

- `JsString` (`JsString.dfy`) holds the JavaScript string built-ins that the
  components use. `trim` uses the ECMAScript whitespace set, which is the same
  set that backs the regular-expression class `\s`. The module also has
  `startsWith`, `split` with a one-character separator and `join`. `split` and
  `join` are proved inverse in both directions.
- `ChatMessage` (`ChatMessage.dfy`) holds the message record, the line
  classifier, the marker-stripping pattern and the renderer.
- `App` (`App.dfy`) holds the seed transcript and the two canned replies. It
  also holds the class `Conversation`, whose fields are the three pieces of
  component state plus an explicit queue of pending timer callbacks.

Both handlers that schedule a callback use the same 1500 ms delay, so the
callbacks run in the order they were scheduled. `Conversation.Fire` runs the
oldest one. That one event stands for any interleaving in time of user events
and timer firings. The source reads message ids from the clock; in the model
each event takes its id as a parameter.

Every method of `Conversation` keeps `Valid()`, which is the invariant
`Invariant` proved in `App`:

- the three seed messages stay at the front;
- when the loading flag is set, a reply is still pending;
- after the seed, the number of user messages equals the number of assistant
  messages plus the number of pending replies;
- every assistant message after the seed is one of the two canned replies.

The converse of the second point does not hold. Sending twice before the first
reply arrives schedules two callbacks, and the first one to run clears the
flag while the second is still pending (`DoubleSubmitScenario`). A stricter
rule would allow only one assistant turn outstanding at a time. The code does
not enforce it, because the input stays enabled while a reply is pending, and
the model follows the code, which lets two turns overlap.

The renderer has an edge case where the classifier and the stripper disagree.
The classifier tests the trimmed line, but the stripping pattern is anchored
at index 0 of the untrimmed line. An indented bullet is therefore shown as a
bullet item, but its text keeps the indentation and the marker
(`IndentedBulletKeepsMarker`).

## Model

| member | source | states |
|---|---|---|
| JsString.IsWhitespace | src/App.tsx:41 | the ECMAScript WhiteSpace and LineTerminator code points, the set that both `trim()` and the `\s` class use |
| JsString.Trim | src/App.tsx:41 | `trim()` is the middle slice of the string whose dropped leading and trailing runs are all whitespace; it is empty exactly when the string is all whitespace, and otherwise its first and last characters are not whitespace |
| JsString.StartsWith | src/components/ChatMessage.tsx:43 | `startsWith(p)` holds exactly when `p` is no longer than the string and agrees with it character by character |
| JsString.TrimStart | src/components/ChatMessage.tsx:47 | the `\s*` run after the marker is dropped: the result is a suffix, every dropped character is whitespace, and the result does not start with whitespace |
| JsString.TrimEnd | src/App.tsx:41 | trailing whitespace is dropped: the result is a prefix, what was dropped is whitespace, and the result does not end with whitespace |
| JsString.TrimKeepsFirstNonBlank | src/components/ChatMessage.tsx:43 | the first character of the trimmed line is the line's first non-whitespace character |
| JsString.TrimStartsWithIff | src/components/ChatMessage.tsx:43 | `line.trim().startsWith(c)`, for a non-whitespace `c`, holds exactly when the line's first non-whitespace character is `c` |
| JsString.Split | src/components/ChatMessage.tsx:42 | `split('\n')` yields at least one piece, and no piece contains a line break |
| JsString.SplitCount | src/components/ChatMessage.tsx:42 | the split has one piece more than the content has line breaks |
| JsString.JoinSplit | src/components/ChatMessage.tsx:42 | joining the split pieces with the separator gives back the content |
| JsString.SplitJoin | src/components/ChatMessage.tsx:42 | splitting a join of separator-free pieces gives back the pieces |
| ChatMessage.IsBullet | src/components/ChatMessage.tsx:43 | a line is a bullet exactly when its first non-whitespace character is `•` or `-` |
| ChatMessage.StripMarker | src/components/ChatMessage.tsx:47 | `^[•-]\s*` with an empty replacement: a marker at index 0 is removed together with the whitespace after it, leaving a suffix that does not start with whitespace; any other line is returned unchanged |
| ChatMessage.RenderLine | src/components/ChatMessage.tsx:43-51 | a line is a bullet item exactly when it is classified as a bullet, and the item then shows the stripped line; otherwise it is a paragraph showing the line exactly |
| ChatMessage.RenderList | src/components/ChatMessage.tsx:42-52 | one item per line of the content, in order, each the rendering of its line |
| ChatMessage.Render | src/components/ChatMessage.tsx:17-70 | right side and user avatar exactly when the author is the user; list body exactly when `isList` is true, otherwise the content verbatim; one control per quick reply, in order, showing that reply |
| ChatMessage.Activate | src/components/ChatMessage.tsx:66 | clicking control `i` yields a reply exactly when the view has an `i`-th control, and the reply is the one that control carries |
| ChatMessage.ThreeControls | src/components/ChatMessage.tsx:60-68 | a message with three quick replies renders exactly three controls, each showing and sending its reply |
| ChatMessage.ActivateSendsReply | src/components/ChatMessage.tsx:60-68 | control `i` exists exactly when the message has an `i`-th quick reply, and clicking it hands over exactly that reply |
| ChatMessage.ListLinesRebuildContent | src/components/ChatMessage.tsx:42 | the lines the list items come from, joined with line breaks, are the content |
| ChatMessage.ListItemCount | src/components/ChatMessage.tsx:42-52 | a list message shows one item more than its content has line breaks |
| ChatMessage.RenderListOfLines | src/components/ChatMessage.tsx:42-51 | content assembled from separator-free lines renders one item per line, each the rendering of that line |
| ChatMessage.PlainLine | src/components/ChatMessage.tsx:51 | a line that starts with neither whitespace nor a marker is a paragraph showing the line |
| ChatMessage.EmptyLineIsEmptyParagraph | src/components/ChatMessage.tsx:51 | an empty line (e.g. between two line breaks) becomes an empty paragraph and is not skipped |
| ChatMessage.IndentedBulletKeepsMarker | src/components/ChatMessage.tsx:43-47 | a line whose marker follows a non-empty run of whitespace is classified as a bullet, but its text keeps the whole line, indentation and marker included |
| ChatMessage.MarkedLine | src/components/ChatMessage.tsx:43-47 | a marker at index 0 followed by one space renders as a bullet showing the rest |
| ChatMessage.RenderListExample | src/components/ChatMessage.tsx:40-52 | `"• A\nB\n- C"` renders as bullet "A", paragraph "B", bullet "C" |
| App.InitialMessages | src/App.tsx:8-27 | the seed transcript: messages "1", "2" and "3", by the assistant, the user and the assistant; only message 3 is a list; the seed quick replies |
| App.UserMessage | src/App.tsx:44-48 | the message a user turn appends (also the one at src/App.tsx:68-72): by the user, with the given id and text, no quick replies and no list flag |
| App.Reply | src/App.tsx:56-61 | the canned assistant message a callback appends (the one at src/App.tsx:79-85 for the quick-reply kind): by the assistant, with the given id, three quick replies, and a list exactly for the quick-reply kind |
| App.SendReplyRenders | src/App.tsx:56-61 | the send reply renders on the left with the bot avatar, its text as one block, and controls "Tell me more", "Show examples" and "Next steps" |
| App.QuickReplyReplyRenders | src/App.tsx:79-85 | the quick-reply reply renders on the left with the bot avatar, its content as a list, and controls "More tips", "Review my draft" and "What's next?" |
| App.IsSubmitKey | src/App.tsx:92 | the key that submits: Enter without Shift |
| App.InitialInvariant | src/App.tsx:30-32 | the initial state satisfies the conversation invariant |
| App.UserTurnKeepsInvariant | src/App.tsx:50-52 | appending a user message, setting the flag and scheduling a reply keeps the invariant |
| App.ReplyKeepsInvariant | src/App.tsx:55-64 | the oldest pending reply firing keeps the invariant, with the flag cleared |
| App.Conversation.constructor | src/App.tsx:30-32 | the seed transcript, an empty input box, the flag clear and no reply pending |
| App.Conversation.Type | src/App.tsx:138 | the input box holds the new value; nothing else changes |
| App.Conversation.SendDisabled | src/App.tsx:146 | the send button is disabled exactly when the input is empty or all whitespace |
| App.Conversation.Send | src/App.tsx:40-54 | on blank input nothing changes; otherwise the untrimmed input is appended as a user message, the box is cleared, the flag is set and one send reply is scheduled; the invariant is kept |
| App.Conversation.QuickReply | src/App.tsx:67-77 | the reply is appended as a user message with no emptiness check, the flag is set, one quick-reply reply is scheduled, and the input box is untouched; the invariant is kept |
| App.Conversation.Fire | src/App.tsx:55-88 | the oldest scheduled callback appends its canned reply and clears the flag, even when another reply is still pending; the invariant is kept |
| App.Conversation.KeyPress | src/App.tsx:91-96 | Enter without Shift acts as send; any other key changes nothing; the invariant is kept |
| App.Conversation.ClickControl | src/App.tsx:118-124 | clicking control `i` of message `k` appends exactly the `i`-th quick reply of that message as a user turn; the invariant is kept |

## Left out

- Markup, Tailwind classes, icons, `ScrollArea` and the header: they are presentation only.
- The auto-scroll `useEffect` (src/App.tsx:36-38): it is a DOM side effect.
- `LoadingIndicator` and `QuickReplyButton` are not part of this model. The view records that a control exists and what it sends.
- Time is left out. The 1500 ms delay is kept only as "callbacks run in the order they were scheduled", through the pending queue.
- Timer cancellation on teardown: the code has none, and the model has no teardown.
- Conversation.Send, Conversation.QuickReply, Conversation.Fire: ids come from `Date.now()`, which is a clock, so they are event parameters. The model does not prove them unique. Two events in the same millisecond give equal ids in the source.
- `e.preventDefault()` in `handleKeyPress` (src/App.tsx:93) is left out: it is a DOM side effect.
- JsString: strings are sequences of code points, while JavaScript strings are UTF-16 code units. This makes no difference for the characters the classifier tests.
- App.QuickReplyReplyRenders: it states that the body is the list rendering of the reply's content, but it does not spell out each item of that canned list.
- App.InitialMessages: it states the authors, ids, list flags and quick replies of the seed, but it does not spell out the rendering of each item of message 3.
- App.Invariant: it keeps the code's looseness, where two assistant turns can be outstanding at once. A rule allowing only one outstanding assistant turn is not imposed.
