# Streaming chat: client-side message bookkeeping

This project models the browser half of a small real-time chat. Each browser
session keeps an ordered list of messages. Sending appends an optimistic copy
and publishes it to the server. Every message that comes back on the event
stream is merged into the list by its `id`. That merge is how the sender's own
optimistic copy gives way to the echoed copy. Ids whose publish failed are
kept in a "not delivered" list. Own messages on that list show a resend link.
Every bubble carries an `HH:MM` stamp whose fields are padded to two digits.

Modules:

- `TimeFormat` (`time_format.dfy`): the hour and minute padding and the
  `hours + ":" + minutes` stamp. A decimal printer (`Decimal`) and a digit
  reader (`ValueOf`) let the padding be checked by reading its output back.
- `Chat` (`chat.dfy`): the current page, `src/components/chat.tsx`. It covers
  the receive upsert (`Upsert`), the not-delivered bookkeeping of
  `sendMessage` (`AfterPublish`) and rendering (`Render`). The class
  `ChatSession` holds the message list, the not-delivered ids and the input.
  Its methods are the send, receive and resend handlers.
- `ChatScreen` (`chat_screen.dfy`): the earlier, unused revision
  `src/components/chat-screen.tsx`. There, messages carry an optional
  `notFetched` flag and the screen keeps its own `myMessages` list. The class
  `Screen` has the send handler, and `PostBodyFor` builds the request body.
- `Wrappers`, `Sequences` (`wrappers.dfy`): `Option` and a subsequence
  relation, used to state "same elements, same order, some dropped".

For each operation, the values the code takes from outside are parameters:

- The publish outcome is a `PublishOutcome`. It is one of: a response with
  some status, a synchronous throw, or a rejected promise.
- The freshly generated id is a parameter. Its freshness is a precondition of
  `ChatSession.Send`.
- The clock is a `Clock` holding integer hours and minutes.

In a few places the intended behaviour of the chat differs from what the code
does. The model follows the code:

- Intended: an incoming message replaces the entry with the same id where it
  stands. The code filters that entry out and appends the new message at the
  end, so the entry moves to the end of the list (`Upsert`,
  `UpsertPresentMovesToEnd`).
- Intended: every failed publish marks the message as not delivered. The code
  marks it only on a non-200 status or on a synchronous throw. A rejected
  fetch promise is never caught, so it leaves the list as it was (`Rejected`
  in `AfterPublish`).
- Intended: the not-delivered marker clears when the echoed copy of the
  message arrives on the stream. The code does not do this. The stream
  listener (chat.tsx:246-251) only replaces the message list. The
  not-delivered ids change only inside `sendMessage` (chat.tsx:46, 49, 54).
  So an own message whose publish failed keeps its resend link after its echo
  has replaced it. `ChatSession.Receive` leaves the not-delivered ids alone,
  and `EchoKeepsResendMarker` proves that the echoed bubble still shows
  resend.
- Intended: each stream frame carries `id:`, `event: chat.message` and
  `retry:` lines as well as the data. The server (src/app/api/chat/route.ts:14)
  writes only a bare `data:` line. A browser delivers such a frame as an
  unnamed `message` event, so the `chat.message` listener at chat.tsx:246 is
  never called. With this server, no echo is ever merged into the list. The
  model describes what the listener does when it is called.
- The server also drops `date` from the payload it publishes
  (route.ts:27-29). An echo built from that payload has no date. Its stamp
  would print as "0NaN:0NaN", not as HH:MM. The model gives every message a
  `Clock`, so such a dateless echo is not represented.

## Model

| member | source | states |
|---|---|---|
| `TimeFormat.Decimal` | src/components/chat.tsx:77 | a number prints as at least one digit; it starts with "0" iff it is 0; it has one digit iff below 10 and two iff 10..99 |
| `TimeFormat.DecimalRoundTrip` | src/components/chat.tsx:77 | reading the printed digits back gives the number printed |
| `TimeFormat.PadField` | src/components/chat.tsx:70-71 | a padded field is all digits and at least two long; it starts with "0" iff the value is at most 9; it is exactly two long for values below 100; larger values are printed unpadded |
| `TimeFormat.PadFieldRoundTrip` | src/components/chat-screen.tsx:31-32 | the padded field still denotes its value; the same ternaries appear at chat-screen.tsx:55-56 and chat.tsx:105-107 |
| `TimeFormat.FormatClock` | src/components/chat.tsx:113 | for hours 0..23 and minutes 0..59 the stamp is five characters: two digits, ":", two digits |
| `TimeFormat.FormatClockRoundTrip` | src/components/chat-screen.tsx:38 | for every valid time, parsing the stamp gives back the same hours and minutes |
| `Chat.WithoutId` | src/components/chat.tsx:249 | the filter keeps no entry with the id; it is a subsequence of the input as long as the number of entries with other ids, so it keeps each of them in order |
| `Chat.Upsert` | src/components/chat.tsx:248-251 | after receiving m: m is last; exactly one entry has m's id and that entry is m; the length is the old length minus the count of m's id, plus one; the entries with other ids are the same, in the same order, as before |
| `Chat.UpsertIdempotent` | src/components/chat.tsx:248-251 | receiving the same message twice gives the same list as receiving it once |
| `Chat.UpsertAbsentAppends` | src/components/chat.tsx:248-251 | a message whose id is not in the list is appended and nothing else changes |
| `Chat.UpsertPresentMovesToEnd` | src/components/chat.tsx:248-251 | an entry present once at index k is removed there and the new message is put at the end (moved, not replaced in place) |
| `Chat.EchoReplacesOptimisticCopy` | src/components/chat.tsx:185 | after an optimistic append of a fresh id, the echo of that id replaces the optimistic copy at the end and the earlier entries are untouched |
| `Chat.RemoveAll` | src/components/chat.tsx:49 | filtering an id out of the not-delivered list removes every occurrence of it, keeps the other ids with their multiplicities, and keeps their order |
| `Chat.AfterPublish` | src/components/chat.tsx:44-55 | on a non-200 status or a synchronous throw, the id is appended at the end of the list handed in, with no dedup; on status 200 every occurrence is removed and the other ids keep their order; on a rejected promise the list is unchanged; the id is in the result iff the attempt failed, or it was rejected with the id already present |
| `Chat.Render` | src/components/chat.tsx:136-155 | one view per message, in list order; a view is "own" iff the message's userId is the local one; an own view shows resend iff the id is in the not-delivered list; other views carry the sender name; every view carries the content and the stamp of its date |
| `Chat.EchoKeepsResendMarker` | src/components/chat.tsx:246-251 | the echo of an own message whose id is not delivered still renders, at the end of the list, with the resend link: receiving does not clear the marker |
| `Chat.ChatSession.constructor` | src/components/chat.tsx:229-233 | a session starts with no messages and no not-delivered ids; the input starts empty (chat.tsx:120-123) |
| `Chat.ChatSession.Type` | src/components/chat.tsx:168 | the input holds the typed text |
| `Chat.ChatSession.Send` | src/components/chat.tsx:172-189 | with empty input nothing changes; otherwise the new message (fresh id, input as content, local userId and username) is appended at the end, earlier entries are untouched, its id occurs exactly once, the not-delivered list is updated by the outcome, and the input is cleared so sending is disabled again; the new last bubble is own, with the input as content and the send time as stamp, and shows resend iff the publish failed (or was rejected with the id already listed) |
| `Chat.ChatSession.Receive` | src/components/chat.tsx:246-251 | the message list becomes the upsert of the incoming message; the not-delivered ids are unchanged, so an own message marked not delivered is drawn last with its resend link |
| `Chat.ChatSession.Resend` | src/components/chat.tsx:79-89 | for an own message marked not delivered, the identical message is published again and its outcome is applied; after a success its id is no longer marked |
| `ChatScreen.PostBodyFor` | src/components/chat-screen.tsx:146-152 | the body has the local message's id, username, userId and content; read back, it has no notFetched flag, so it shows no marker |
| `ChatScreen.Render` | src/components/chat-screen.tsx:87-105 | one view per message, in order; "own" iff the userId matches; an own view shows the not-fetched marker iff the flag is present and true (chat-screen.tsx:41, 94) |
| `ChatScreen.Screen.constructor` | src/components/chat-screen.tsx:70-74 | the screen starts with the parent's list, no sent messages and an empty input |
| `ChatScreen.Screen.Type` | src/components/chat-screen.tsx:119 | the input holds the typed text |
| `ChatScreen.Screen.Send` | src/components/chat-screen.tsx:123-154 | with empty input nothing changes; otherwise a message marked notFetched, with the input as content and the local identity, is appended to both lists; its body is posted; the input is cleared so sending is disabled again; the new last bubble is own, with the not-fetched marker |

## Left out

- `src/app/api/chat/route.ts`: the server's Redis subscribe and publish, the event-stream writer and the HTTP responses are foreign calls and I/O. This also drops the server's behaviour of writing `data:` frames only and leaving `date` out of the published payload.
- `src/app/api/hello/route.ts`: a timer-driven demo stream (timing and concurrency only).
- `src/app/layout.tsx`, `src/app/page.tsx`, `src/components/starting-screen.tsx` and the `StartingScreen` component in chat.tsx: markup, fonts and theme script.
- Identity bootstrap (`confirmUsername`, `localStorage`, `nanoid`): the user id, the user name and fresh message ids are parameters.
- `EventSource` setup and teardown, and `JSON.parse` of incoming events: an incoming event is a `Message` parameter. Malformed payloads are not modelled.
- `Date`: only the hours and minutes the views read are modelled, as integers. Day, seconds and time zone are not.
- Async interleaving: `sendMessage` computes the new not-delivered list from the list captured when the send happened, so two completions in flight can lose an update. `AfterPublish` is a function of the list passed in. `ChatSession.Send` applies the outcome at once, so interleavings of completions are not modelled.
- `ChatSession.Send`: the publish completion is applied within the send step itself rather than later.
- `ChatScreen.Screen.Send`: the outcome of the POST is ignored there, so it is not modelled.
- Scrolling (`scrollIntoView`), JSX layout and CSS.
