# A verified model of a one-to-one web chat

The system is a small web chat made of two parts. A Flask server (`app.py`) keeps a SQLite database with two tables, `users` and `messages`. It answers JSON queries over those tables and relays messages over Socket.IO. A browser client (`static/script.js`) keeps the chat session: the selected peer, the cached directory, the contact list, the message pane and the composer's text.

This project models both parts in Dafny and proves what each operation does.

- **Scalars** (`values.dfy`, module `Values`).
  - Ids cross several runtimes, so they are a tagged `Value = Int | Str`, never collapsed into one type.
  - Each runtime's own operation is defined separately: JavaScript `===`, Python `str()`, SQLite's INTEGER column affinity and its BINARY text collation.
- **Client helpers.**
  - `escapeHtml` (`html.dfy`, module `Html`) is the text-mode "escaping a string" algorithm of section 13.3 (Serializing HTML fragments) of the WHATWG HTML Living Standard. It is proved markup-free and invertible.
  - `String.prototype.trim` (`jstext.dfy`, module `JsText`) uses ECMAScript's WhiteSpace and LineTerminator sets.
- **Payloads** (`wire.dfy`, module `Wire`): the JSON bodies and the `send_message`, `receive_message` and `message_sent` payloads.
- **Server** (`app.py`, module `App`).
  - The tables are sequences of rows.
  - The queries are functions: `get_users`, `search_user`, the login lookup, and `get_messages` with its join, symmetric filter, `ORDER BY` and projection.
  - The state-changing handlers are methods of class `Server`: `signup`, `send_message`, `connect` and `disconnect`. The class keeps the tables, the AUTOINCREMENT counters, the room memberships and the log of emissions.
- **Client** (`static/script.js`, module `Script`).
  - Class `Session` has one method per event handler, each an atomic step.
  - A fetch's outcome (ok with a body, not ok, or thrown) is a parameter.
  - The session records its outbound effects in order: fetches, `send_message` emissions, pane clears and pane appends. The invariant `Valid()` ties the pane to the effects and keeps every body in it markup-free.
- **Where the two meet** (`relay.dfy`, module `Relay`): an end-to-end argument about ids and rooms, plus a concrete scenario of Alice writing to Bob.

## Model

| member | source | states |
|---|---|---|
| Values.StrictEquals | static/script.js:37 | `===` holds exactly for equal values of the same type; a number never equals a string |
| Values.IntTextRoundTrip | app.py:50 | `str()` of an int is integer text and reads back as that int |
| Values.IntTextInjective | app.py:50 | two ids have the same text exactly when they are equal |
| Values.IntegerAffinity | app.py:35-36 | an INTEGER column keeps numbers; integer-literal text becomes the integer it denotes; any text that stays text does not read as an integer |
| Values.AffinityOfIntText | app.py:152 | the text id of the logged-in user, compared with or stored in an INTEGER column, is the numeric id |
| Values.TextLeTotal | app.py:189 | any two timestamps are ordered one way or the other by the BINARY collation |
| Values.TextLeTransitive | app.py:189 | the BINARY collation order is transitive |
| Html.EscapeIsNeutral | static/script.js:249-254 | the escaped text has no raw `<`, `>` or no-break space, and every `&` in it begins `&amp;`, `&nbsp;`, `&lt;` or `&gt;` |
| Html.EscapeRoundTrip | static/script.js:249-254 | decoding the four references gives back the original text, so escaping loses nothing |
| Html.UnescapeEscapeChar | static/script.js:249-254 | decoding an escaped character followed by any text yields that character first |
| Html.NeutralConcat | static/script.js:249-254 | joining two markup-free texts gives markup-free text |
| JsText.TrimStart | static/script.js:108 | the result is a suffix, what was dropped is all white space, and the result does not start with white space |
| JsText.TrimEnd | static/script.js:108 | the result is a prefix, what was dropped is all white space, and the result does not end with white space |
| JsText.TrimIsCore | static/script.js:189 | the trimmed text is a contiguous slice, with only white space around it and none at either of its ends |
| JsText.TrimEmptyIff | static/script.js:191 | the trimmed text is empty exactly when the text is all white space |
| JsText.TrimIdempotent | static/script.js:189 | trimming twice is trimming once |
| Script.ContactListOf | static/script.js:87-104 | an empty list shows "No users found"; any other list shows one entry per user, in order |
| Script.BubbleOf | static/script.js:215-240 | the rendered body is markup-free and decodes to the message; the own flag, timestamp and author ("You" or the sender name) are kept |
| Script.RenderedCount | static/script.js:171-178 | the history loop renders the items before the first item that throws, and that item throws |
| Script.HistoryViewComplete | static/script.js:171-178 | when no item throws, the pane holds exactly the fetched messages in order, each with its text, `is_own` flag and timestamp |
| Script.EmitThenAppend | static/script.js:196-207 | a send adds exactly one `send_message` emission to the effects |
| Script.Session.constructor | static/script.js:5-6 | no peer, an empty directory, no contact list, an empty pane and composer, and no effects |
| Script.Session.DisplayUsers | static/script.js:87-104 | the contact list becomes the rendering of the given users |
| Script.Session.LoadUsers | static/script.js:70-84 | an ok response caches and shows the users; not ok shows "Failed to load users"; an exception shows "Error loading users"; the pane is unchanged |
| Script.Session.HandleSearch | static/script.js:107-127 | a query that trims to nothing redisplays the cached users without a fetch; otherwise it fetches the trimmed query and shows the one user found, "No user found" or "Search error" |
| Script.Session.AddMessageToChat | static/script.js:215-240 | appends exactly one record, unless the item is someone else's with a null sender name, which throws and changes nothing |
| Script.Session.RenderHistory | static/script.js:171-178 | the `forEach` fills the empty pane with the history view and records one append per rendered item |
| Script.Session.LoadChatHistory | static/script.js:164-185 | fetches the peer's history; an ok response replaces the pane with the history view; not ok or an exception leaves it alone |
| Script.Session.SelectUser | static/script.js:130-161 | the peer becomes (userId, username, name), and the history of userId is loaded |
| Script.Session.SendMessage | static/script.js:188-212 | empty trimmed text or no peer changes nothing; otherwise it emits one `send_message` to the peer's id with the trimmed text, so the emissions grow by exactly that payload, appends one own record after it, and clears the composer |
| Script.Session.Type | static/script.js:18 | editing the composer sets its text and changes nothing else |
| Script.Session.KeyPress | static/script.js:264-269 | Enter without Shift sends as `sendMessage` does: the emission to the peer, then the user's own record with the trimmed text, appended to the pane, and the composer cleared; any other key, or nothing to send, changes nothing |
| Script.Session.ReceiveMessage | static/script.js:36-41 | as written: appends exactly one record that is not the user's own when the sender id is strictly equal to the selected peer's id; otherwise nothing changes |
| Script.Session.ReceiveMessageIntended | static/script.js:36-41 | the corrected handler (see Findings): appends exactly one record that is not the user's own when the sender id's text is the selected peer's; otherwise nothing changes |
| Script.Session.Reconnect | static/script.js:286-291 | logs, then reloads the selected peer's history only if a peer is selected |
| Script.Session.MessageSent | static/script.js:43-46 | only logs; the session is unchanged |
| Script.Session.Connected | static/script.js:28-30 | only logs; the session is unchanged |
| Script.Session.Disconnected | static/script.js:32-34 | only logs; the session is unchanged |
| Script.Session.ConnectError | static/script.js:281-283 | only logs; the session is unchanged |
| App.OrElse | app.py:52 | Python `a or b` on a nullable name: a non-empty name is kept, an absent or empty name yields the username |
| App.MakeUser | app.py:48-52 | the user object's id is `str` of the row id, which reads back as that id; the username is kept; the name is `name or username` |
| App.GetUsersExact | app.py:152-156 | the directory lists every user except the caller and nobody else, the name falling back to the username |
| App.GetUsersInTableOrder | app.py:152-156 | the directory follows table order: its numeric ids strictly increase |
| App.GetUsersIdsAbove | app.py:152-156 | a listing of rows with ids above a bound holds only numeric ids above it |
| App.SearchUserExact | app.py:166-174 | the search succeeds exactly when a user other than the caller has that username and returns that user; otherwise it fails with "No user found" |
| App.FindByUsername | app.py:66-72 | the lookup finds a row exactly when one has the username, and returns such a row |
| App.LoginIff | app.py:92-101 | login succeeds exactly when the username exists and its password check passes, yielding that user; otherwise it fails with "Invalid username or password" |
| App.SenderOf | app.py:187 | the sender lookup finds a user whose id is the message's sender, or reports that none exists |
| App.SenderRows | app.py:184-190 | the reference history rows: at most one per message |
| App.JoinSenderIsSender | app.py:187 | with unique user ids the join gives a message at most one row, the one with its sender's row |
| App.ConversationIsSenderRows | app.py:184-190 | the filtered join is exactly one row per message between the two users that has a sender row, in table order |
| App.ConversationSource | app.py:184-190 | every joined row comes from a selected message and its sender's row |
| App.ConversationIncludes | app.py:184-190 | every selected message that has a sender row is in the join |
| App.SortIsSortedPermutation | app.py:189 | `ORDER BY timestamp ASC` yields a timestamp-ordered permutation of the rows |
| App.Project | app.py:195-201 | one JSON history item per row, in order |
| App.BetweenIsConversation | app.py:188-190 | with the caller's text id, the SQL filter selects exactly the messages between the two numeric ids, either way |
| App.JoinedHistory | app.py:200 | `is_own` holds exactly when the caller sent the message |
| App.GetMessagesOrdered | app.py:184-201 | the history projects a timestamp-ordered permutation of the conversation, so timestamps never decrease |
| App.GetMessagesSound | app.py:184-201 | every history item is a message between the two users that has a sender row |
| App.GetMessagesComplete | app.py:184-201 | every such message is in the history |
| App.GetMessagesOnePerMessage | app.py:184-201 | with unique user ids the history projects a timestamp-ordered permutation of one row per message between the two users that has a sender row, so nothing is lost or repeated |
| App.SortedOrdersAll | app.py:189 | in timestamp order every earlier row's timestamp is no later than every later one's |
| App.GetMessagesOrderedPairwise | app.py:189 | any earlier history item has a timestamp no later than any later one |
| App.GetMessagesExact | app.py:184-201 | the history holds exactly the messages between caller and peer, either way, with `is_own` telling whether the caller sent them |
| App.RoomNameInjective | app.py:208 | distinct user ids name distinct rooms |
| App.AppendUserKeepsTable | app.py:116-117 | inserting a fresh username with the next id keeps ids increasing and usernames unique |
| App.AppendMessageKeepsTable | app.py:228-231 | inserting a row with the next id keeps message ids increasing and the INTEGER columns well stored |
| App.Server.constructor | app.py:17-45 | empty tables, counters at zero, no rooms and no emissions |
| App.Server.Signup | app.py:105-131 | a taken username fails with "Username already exists" and changes nothing; otherwise exactly one row is added with the next id and the name defaulting to the username |
| App.Server.HandleMessage | app.py:217-253 | an anonymous caller changes and emits nothing; otherwise exactly one row is added (sender, receiver, text, the next id), then `receive_message` goes to room `user_<receiver>` and `message_sent` goes back to the sender's socket, both with the stored text and timestamp |
| App.Server.Connect | app.py:204-209 | an anonymous socket is refused; otherwise the socket joins `user_<id>` |
| App.Server.Disconnect | app.py:211-215 | an authenticated socket leaves `user_<id>`; otherwise nothing changes |
| Relay.DirectoryIdsAreNumbers | app.py:156 | every id the directory or the search hands the client is a number |
| Relay.RelayedMessageIsNeverShown | static/script.js:37 | as written, no relayed message passes the filter for a peer taken from the directory or the search |
| Relay.RelayLeavesPaneUnchanged | static/script.js:36-41 | as written, with a peer from the directory or the search selected, a relayed message leaves the pane and its recorded changes unchanged |
| Relay.AsWrittenDropsAlicesMessage | static/script.js:37 | with Alice (id 1) selected, a relay carrying sender id "1" is dropped as written and shown as intended |
| Relay.IntendedFilterShowsExactlyPeer | static/script.js:37 | the intended filter shows a relayed message exactly when its sender is the selected peer |
| Relay.ReceiverRoomIsUsersRoom | app.py:246 | a message to receiver j goes to the room user k joins exactly when j is k |
| Relay.RelayReachesReceiverOnly | app.py:240-246 | a socket that belongs only to user k's room receives the relay for receiver j exactly when j is k |
| Relay.SentToContactIsStoredForContact | app.py:228-231 | a message to a directory contact is stored with that contact's numeric id as receiver |
| Relay.ContactInDirectory | app.py:152-156 | with Alice and Bob signed up, Bob's directory lists Alice with id 1 |
| Relay.SignUpAliceAndBob | app.py:105-131 | two sign-ups on a fresh server give ids 1 and 2 |
| Relay.ServerScenario | app.py:217-253 | Alice's message to Bob is stored with numeric ids, goes to room `user_2`, and carries sender id "1" |
| Relay.ClientScenario | static/script.js:36-41 | with the corrected handler, Alice's relayed message lands in Bob's pane as one record from "Alice A" |
| Relay.ClientScenarioAsWritten | static/script.js:36-41 | with the handler as written, Bob's pane stays empty when Alice's message arrives |

## Left out

- DOM and markup are not modelled: CSS classes, the `innerHTML` templates, the `active` highlight, the sidebar, resize and focus handlers, and the 100 ms scroll and focus timers. The contact list and the pane are values.
- Timestamp display (`toLocaleTimeString`) is locale-dependent and is not modelled. The avatar's `charAt(0).toUpperCase()` depends on Unicode case mapping and is not modelled either. A record keeps the raw timestamp and the author.
- The transport is not modelled: `fetch`, Socket.IO connection set-up and `beforeunload`. Each fetch outcome is a parameter, and so is each relayed payload.
- Concurrency is not modelled. An example is a stale history response arriving after a later `selectUser`. Each handler is one atomic step.
- Flask sessions, templates, redirects, `login_required` and the 401 branches are left out. The authenticated user is an `Option<User>` parameter.
- Password hashing is not modelled. `generate_password_hash` is replaced by a supplied hash, and `check_password_hash` is an uninterpreted predicate parameter of `App.Login`.
- `CURRENT_TIMESTAMP` is a supplied `now` value.
- App.SortByTimestamp: SQLite leaves the order of equal timestamps unspecified. The model fixes one order, a stable insertion sort, so the lemmas state only ordering and permutation.
- The client's `new Date().toISOString()` is a supplied `now`.
- Usernames and names are printed unescaped into the `onclick` attribute. That injection is not modelled; `selectUser` receives the values as the directory sent them.
- `encodeURIComponent` and Flask's URL routing of the search query are not modelled. The request records the raw trimmed query.
- Strings are sequences of Unicode scalar values. JavaScript's UTF-16 code units, and therefore surrogate pairs in `trim` and `charAt`, are not modelled.
- Integers are unbounded. SQLite's 64-bit INTEGER range, and its REAL conversion of larger numeric text, are left out.
- Values.IntegerAffinity: text with leading or trailing spaces that SQLite would still read as an integer is kept as text.
- Values.IntegerAffinity: text that is a real literal is kept as text. SQLite stores it as an integer when its value is integral ("2.0", "3.0e+5") and as a REAL otherwise ("2.5"). The model has no REAL value.
- The FOREIGN KEY clauses are not enforced by SQLite by default, and they are not modelled. The join simply drops messages whose sender has no row.
- A missing `username` or `password` form field in `signup` or `login` makes Flask answer 400. That error path is not modelled: both fields are plain string parameters.
- A missing `receiver_id` or `message` field raises `KeyError` in `handle_message`. That error path is not modelled: `SendPayload` always has both fields.
- Text-mode serialisation leaves `"` unescaped; the model follows the code.
- Logging (`console.log`, `print`) is kept only as the line each log-only client handler returns.

## Findings

| source | as written | input that shows it | evidently intended | confidence | as-written member | corrected member |
|---|---|---|---|---|---|---|
| static/script.js:37 | the `receive_message` filter compares `data.sender_id`, which the server sends as the Python str `current_user.id` (app.py:50, app.py:242), to `currentChatUser.id` with `===`. The client holds that id as the number printed into `onclick` from the integer ids of `GET /api/users` (app.py:156, static/script.js:94) | user 1 ("alice") sends "hi" to user 2, whose page has Alice selected: the payload carries `sender_id` "1", the peer id is 1, and `"1" === 1` is false, so the message is not shown until the page reloads the history | show a relayed message whose sender is the selected peer, comparing ids by value | not executed | Relay.RelayedMessageIsNeverShown | Relay.IntendedFilterShowsExactlyPeer |

`Script.ShowsInbound` is the filter as written, and `Relay.AsWrittenDropsAlicesMessage` shows it on the concrete input above. `Script.IntendedShowsInbound` compares the ids' text. `Script.Session.ReceiveMessage` is the handler as written. `Relay.RelayLeavesPaneUnchanged` proves that, with a peer from the directory or the search selected, a relayed message leaves that handler's pane unchanged. `Relay.ClientScenarioAsWritten` shows it on the concrete input. `Script.Session.ReceiveMessageIntended` is the corrected handler, and `Relay.ClientScenario` shows the message arriving there.
