# Fitness coach app: intake transcript and weekly availability table

This project models, in Dafny, the self-contained logic of two screens of a
booking app for fitness coaches.

**Chat intake form** (`chat_intake.dfy`, with the JavaScript string
methods it uses in `js_string.dfy`). A client talks to an AI assistant. The
form keeps the transcript as a sequence of messages (`id`, `role`,
`content`). Submitting appends the typed text as a user message, then an
empty assistant placeholder, and the streamed reply is accumulated chunk by
chunk into every message carrying the placeholder's id. After every change
the form looks at the last message: if it is from the assistant and contains
`INTAKE_COMPLETE::`, it cuts the text from the first `{` to the last `}`
after the first marker and hands that candidate, with the whole transcript,
to its owner.

`substring` in JavaScript swaps its bounds when the start lies after the
end. So when the last `}` after the marker comes before the first `{`, the
form extracts the text strictly between the two braces. That text holds no
brace at all (`BraceSpanInverted`). The model keeps this behaviour.

**Coach dashboard** (`dashboard.dfy`). Whatever availability rows the store
returns are normalised to exactly seven entries, one per day of the week
(0 = Sunday). Each entry takes the first stored row for its day, and an
empty or missing time falls back to `09:00` / `17:00`. The coach edits one
time of one day at a time. Saving maps the table to rows keyed by
(coach id, day of week) for an upsert. Summaries fetched for bookings are
kept in a map from booking id to text.

Message ids, the decoded stream chunks, the session, the stored rows and
the fetched summary are inputs: the clock, `fetch`, the stream reader, the
text decoder and the store are not modelled.

## Model

| member | source | states |
|---|---|---|
| JsString.IndexOfFrom | src/components/ChatIntakeForm.tsx:34 | The result is -1 or an occurrence at or after `from`, and no occurrence lies between `from` and the result |
| JsString.IndexOf | src/components/ChatIntakeForm.tsx:34 | `indexOf` is -1 exactly when the pattern does not occur, and otherwise the leftmost occurrence |
| JsString.LastIndexOfBelow | src/components/ChatIntakeForm.tsx:38 | The result is -1 or an occurrence below `n`, and no occurrence lies between the result and `n` |
| JsString.LastIndexOf | src/components/ChatIntakeForm.tsx:38 | `lastIndexOf` is -1 exactly when the pattern does not occur, and otherwise the rightmost occurrence |
| JsString.OccursAtChar | src/components/ChatIntakeForm.tsx:37-38 | A one-character pattern occurs exactly at the positions holding that character |
| JsString.Substring | src/components/ChatIntakeForm.tsx:36-40 | `substring` yields the characters between the two bounds, taking the smaller bound as the start |
| ChatIntake.AfterMarker | src/components/ChatIntakeForm.tsx:33-36 | Nothing exactly when the content lacks `INTAKE_COMPLETE::`; otherwise the whole text after its first occurrence |
| ChatIntake.BraceSpan | src/components/ChatIntakeForm.tsx:37-40 | Nothing exactly when the tail lacks `{` or `}`; otherwise a substring of the tail, from the first `{` to the last `}`, or the text between them when the `}` comes first |
| ChatIntake.IntakeCandidate | src/components/ChatIntakeForm.tsx:30-40 | Nothing unless the transcript is non-empty and its last message is the assistant's and contains the marker; otherwise the brace span of the text after the first marker |
| ChatIntake.BraceSpanDelimited | src/components/ChatIntakeForm.tsx:37-40 | When the first `{` precedes the last `}`, the candidate runs from one to the other inclusive, starting with `{` and ending with `}` |
| ChatIntake.BraceSpanInverted | src/components/ChatIntakeForm.tsx:37-40 | When the last `}` precedes the first `{`, the candidate is the text strictly between them and holds no brace |
| ChatIntake.ReplaceContent | src/components/ChatIntakeForm.tsx:76-78 | Length, ids and roles are kept; every message with the id gets the new content, every other message keeps its own |
| ChatIntake.ReplaceContentTwice | src/components/ChatIntakeForm.tsx:72-79 | Replacing by the same id twice equals replacing once with the second content |
| ChatIntake.ReplaceContentAbsent | src/components/ChatIntakeForm.tsx:76-78 | A transcript with no message carrying the id is unchanged |
| ChatIntake.StreamStep | src/components/ChatIntakeForm.tsx:72-79 | After one more chunk the reply is the old reply followed by the chunk, written over the placeholder |
| ChatIntake.StreamedReplyIsScanned | src/components/ChatIntakeForm.tsx:70-78 | While a reply streams into a placeholder appended last, the completion check sees exactly the concatenation of the chunks so far |
| ChatIntake.StreamedAppendsReply | src/components/ChatIntakeForm.tsx:53-79 | When no earlier message shares the placeholder's id, a finished submission is the old transcript, the user message, and the assistant reply holding all chunks in order |
| ChatIntake.IntakeForm.constructor | src/components/ChatIntakeForm.tsx:21-28 | A new form holds only the greeting from the assistant and an empty input |
| ChatIntake.IntakeForm.Type | src/components/ChatIntakeForm.tsx:98 | Typing sets the input text |
| ChatIntake.IntakeForm.Submit | src/components/ChatIntakeForm.tsx:51-80 | Empty input changes nothing; otherwise one user message is appended and the input cleared; with a reply body the placeholder is appended and holds the concatenation of all chunks (loop invariant: after each chunk, the reply so far) |
| ChatIntake.IntakeForm.CheckCompletion | src/components/ChatIntakeForm.tsx:30-49 | The completion is reported exactly when a candidate is found, together with the whole transcript |
| Dashboard.FindDay | src/app/dashboard/page.tsx:34 | Nothing exactly when no row has the day; otherwise the first row with that day |
| Dashboard.Normalise | src/app/dashboard/page.tsx:33-36 | Exactly seven entries, entry `i` for day `i`; the first stored row's times with empty ones replaced by defaults; `09:00`-`17:00` for a day without rows |
| Dashboard.InWeek | src/app/dashboard/page.tsx:33-34 | A filter the page does not run, used to state that out-of-week rows do not matter: a row is kept exactly when it is one of the stored rows and its day lies in 0..6, and kept rows stay in their stored order |
| Dashboard.FindDayInWeek | src/app/dashboard/page.tsx:34 | For a day of the week, dropping rows for days outside 0..6 does not change which row is found |
| Dashboard.NormaliseIgnoresOtherDays | src/app/dashboard/page.tsx:33-36 | Stored rows whose day lies outside 0..6 have no effect on the table |
| Dashboard.Edit | src/app/dashboard/page.tsx:58-62 | Length, day and the other field are kept, the chosen field takes the value, every other entry is unchanged, and a week stays a week |
| Dashboard.SaveRows | src/app/dashboard/page.tsx:64-68 | Nothing without a user; otherwise one row per entry carrying the user's id and that entry's day, start and end |
| Dashboard.SaveRowsKeysDistinct | src/app/dashboard/page.tsx:66-68 | The saved rows' (coach id, day) keys are pairwise distinct exactly when the table's days are |
| Dashboard.WeekKeysDistinct | src/app/dashboard/page.tsx:66-68 | A week's table saves to rows with no two sharing an upsert key |
| Dashboard.SaveThenReload | src/app/dashboard/page.tsx:33-67 | Normalising the rows a week was saved as gives the week back, with empty times replaced by their defaults |
| Dashboard.SaveThenReloadExact | src/app/dashboard/page.tsx:33-67 | A week with no empty time survives save and reload unchanged |
| Dashboard.DashboardPage.constructor | src/app/dashboard/page.tsx:14-17 | No user, an empty table and no summaries |
| Dashboard.DashboardPage.Load | src/app/dashboard/page.tsx:22-43 | Without a session nothing changes; with one the user is set, and the table becomes the normalised rows unless a query failed |
| Dashboard.DashboardPage.StoreSummary | src/app/dashboard/page.tsx:53 | The booking's summary is set, one key is added at most, and every other booking's summary is unchanged |
| Dashboard.DashboardPage.ChangeAvailability | src/app/dashboard/page.tsx:58-62 | The table becomes the edit of the old table, and stays a week |

## Left out

- Slot generation, availability marking and booking insertion (`src/app/book/[coachId]/page.tsx`) are not part of this model.
- The chat and summary API routes are calls to a hosted language model and an environment setting; they are not modelled.
- `JSON.parse` of the candidate and its error path are not modelled: the model stops at the candidate text.
- `fetch`, the stream reader, the text decoder and reader errors: the reply is given as its decoded chunks in arrival order, or as nothing when the response has no body.
- Message ids from `Date.now()` are parameters; nothing guarantees they are unique, so replacement is by id over the whole transcript.
- React scheduling: `Submit` runs its steps in sequence. Two overlapping submissions, and the user message being built from the rendered transcript rather than the latest one, are not modelled.
- Session check, store queries, upsert, sign-out, router navigation, `alert` and `console.error` are I/O; their outcomes are parameters or left out.
- The bookings list, its rendering, the loading indicator for summaries and `toLocaleString` date formatting are display only.
- Dashboard.DashboardPage.ChangeAvailability: requires the index to lie inside the loaded table. The page only calls it for days 0..6 after the table has loaded; an index past the end, which JavaScript would answer by growing the array, is not modelled.
- JsString.Substring: requires both bounds inside the string. The form only passes such bounds; JavaScript's clamping of other bounds is not modelled.
- JsString.IndexOf, JsString.LastIndexOf: positions count Unicode scalar values (Dafny's `char`), not UTF-16 code units as in JavaScript. Positions and lengths differ from JavaScript once a character outside the Basic Multilingual Plane comes earlier in the text. The extracted candidate text is the same, because the marker and the braces are ASCII.
- Stored times are strings. A `null` time in a stored row falls back to its default like the empty string does; the model has only the empty string.
