/** The browser client (static/script.js): the chat session's globals
    (`currentChatUser`, `users`), the contact list, the message pane, the
    composer's text and the client's outbound effects, with each event
    handler as one atomic step.  A handler that awaits a fetch takes the
    fetch's outcome as a parameter. */
module Script {
  import opened Options
  import opened Values
  import opened Html
  import opened JsText
  import opened Wire

  /** The outcome of a `fetch`: an ok response with its parsed body, a
      non-ok response, or an exception (transport failure or bad JSON). */
  datatype Response<+T> = Ok(body: T) | NotOk | Threw

  /** One contact-list entry: the heading and `@username` it shows, and the
      user whose id, username and name its click passes to `selectUser`. */
  datatype ContactEntry = ContactEntry(user: UserJson, heading: string, handle: string)

  /** What `usersList` shows: nothing yet, entries, or a notice. */
  datatype ContactList = Unrendered | Entries(entries: seq<ContactEntry>) | Notice(text: string)

  /** The record `addMessageToChat` renders: the escaped body, the own flag,
      the author shown and the raw timestamp it formats. */
  datatype Bubble = Bubble(body: string, own: bool, author: string, timestamp: string)

  /** The `data` argument of `addMessageToChat`. */
  datatype ChatData = ChatData(message: string, senderUsername: string, senderName: Option<string>, timestamp: string)

  datatype Request = UsersRequest | SearchRequest(query: string) | HistoryRequest(peer: Value)

  /** Effects visible outside the session, in the order they happen: a
      fetch, a `send_message` emission, and the two changes to the message
      pane. */
  datatype Effect = Fetch(request: Request) | Emit(payload: SendPayload) | ClearPane | Append(bubble: Bubble)

  const NoUsersFound := "No users found"
  const FailedToLoadUsers := "Failed to load users"
  const ErrorLoadingUsers := "Error loading users"
  const NoUserFound := "No user found"
  const SearchError := "Search error"

  function EntryOf(u: UserJson): ContactEntry {
    ContactEntry(u, u.name, "@" + u.username)
  }

  /** `displayUsers`: the "No users found" notice for an empty list, else one
      entry per user, in order. */
  function ContactListOf(shown: seq<UserJson>): (r: ContactList)
    ensures shown == [] <==> r == Notice(NoUsersFound)
    ensures shown != [] ==> r.Entries? && |r.entries| == |shown|
    ensures r.Entries? ==> forall i :: 0 <= i < |r.entries| ==> r.entries[i] == EntryOf(shown[i])
  {
    if |shown| == 0 then Notice(NoUsersFound)
    else Entries(seq(|shown|, i requires 0 <= i < |shown| => EntryOf(shown[i])))
  }

  /** `addMessageToChat` throws before appending when a message from someone
      else has a null `sender_name` (`data.sender_name.charAt`). */
  predicate Throws(data: ChatData, own: bool) {
    !own && data.senderName.None?
  }

  /** The rendered record: its body is markup-free and decodes to the text. */
  function BubbleOf(data: ChatData, own: bool): (b: Bubble)
    requires !Throws(data, own)
    ensures Neutral(b.body) && UnescapeText(b.body) == data.message
    ensures b.own == own && b.timestamp == data.timestamp
    ensures b.author == if own then "You" else data.senderName.value
  {
    EscapeIsNeutral(data.message);
    EscapeRoundTrip(data.message);
    Bubble(EscapeText(data.message), own, if own then "You" else data.senderName.value, data.timestamp)
  }

  /** The object `loadChatHistory` passes to `addMessageToChat`. */
  function HistoryData(h: HistoryJson): ChatData {
    ChatData(h.text, h.senderUsername, h.senderName, h.timestamp)
  }

  predicate ItemThrows(h: HistoryJson) {
    Throws(HistoryData(h), h.isOwn)
  }

  /** How many history items render before the first one that throws. */
  function RenderedCount(items: seq<HistoryJson>): (k: nat)
    ensures k <= |items|
    ensures forall j :: 0 <= j < k ==> !ItemThrows(items[j])
    ensures k < |items| ==> ItemThrows(items[k])
    decreases |items|
  {
    if items == [] || ItemThrows(items[0]) then 0 else 1 + RenderedCount(items[1..])
  }

  function BubblesOf(items: seq<HistoryJson>): (r: seq<Bubble>)
    requires forall j :: 0 <= j < |items| ==> !ItemThrows(items[j])
    ensures |r| == |items|
  {
    seq(|items|, j requires 0 <= j < |items| =>
      assert !ItemThrows(items[j]);
      BubbleOf(HistoryData(items[j]), items[j].isOwn))
  }

  lemma BubblesSnoc(items: seq<HistoryJson>, i: nat)
    requires i < |items| && forall j :: 0 <= j <= i ==> !ItemThrows(items[j])
    ensures BubblesOf(items[..i + 1]) == BubblesOf(items[..i]) + [BubbleOf(HistoryData(items[i]), items[i].isOwn)]
  {
    var longer, shorter := BubblesOf(items[..i + 1]), BubblesOf(items[..i]);
    var last := BubbleOf(HistoryData(items[i]), items[i].isOwn);
    forall k | 0 <= k < i
      ensures longer[k] == shorter[k]
    {
      assert items[..i + 1][k] == items[..i][k];
    }
    assert longer[i] == last by {
      assert items[..i + 1][i] == items[i];
    }
    assert longer == shorter + [last];
  }

  /** The count is the index of the first item that throws. */
  lemma RenderedCountIs(items: seq<HistoryJson>, i: nat)
    requires i <= |items| && forall j :: 0 <= j < i ==> !ItemThrows(items[j])
    requires i < |items| ==> ItemThrows(items[i])
    ensures RenderedCount(items) == i
  {
    var k := RenderedCount(items);
    assert k < |items| ==> ItemThrows(items[k]);
  }

  /** Where the `forEach` stops, the pane is the history view. */
  lemma HistoryStopsAt(items: seq<HistoryJson>, i: nat)
    requires i <= |items| && forall j :: 0 <= j < i ==> !ItemThrows(items[j])
    requires i < |items| ==> ItemThrows(items[i])
    ensures BubblesOf(items[..i]) == HistoryView(items)
  {
    RenderedCountIs(items, i);
  }

  /** The pane after an ok history response: the bubbles of the items up to
      the first that throws (the exception leaves the `forEach`). */
  function HistoryView(items: seq<HistoryJson>): seq<Bubble> {
    BubblesOf(items[..RenderedCount(items)])
  }

  /** When no item throws, the pane holds exactly the fetched messages, in
      order, each with its text and its `is_own` flag. */
  lemma HistoryViewComplete(items: seq<HistoryJson>)
    requires forall j :: 0 <= j < |items| ==> !ItemThrows(items[j])
    ensures |HistoryView(items)| == |items|
    ensures forall j :: 0 <= j < |items| ==>
              HistoryView(items)[j].own == items[j].isOwn
              && UnescapeText(HistoryView(items)[j].body) == items[j].text
              && HistoryView(items)[j].timestamp == items[j].timestamp
  {
    RenderedCountIs(items, |items|);
    assert items[..|items|] == items;
  }

  function Appends(bubbles: seq<Bubble>): (r: seq<Effect>)
    ensures |r| == |bubbles|
  {
    seq(|bubbles|, i requires 0 <= i < |bubbles| => Append(bubbles[i]))
  }

  lemma AppendsSnoc(bubbles: seq<Bubble>, b: Bubble)
    ensures Appends(bubbles + [b]) == Appends(bubbles) + [Append(b)]
  {
  }

  /** The pane the effects leave, starting from an empty pane. */
  function Replay(trace: seq<Effect>): seq<Bubble>
    decreases |trace|
  {
    if trace == [] then []
    else
      var before := Replay(trace[..|trace| - 1]);
      match trace[|trace| - 1]
      case ClearPane => []
      case Append(b) => before + [b]
      case _ => before
  }

  /** A fetch or an emission leaves the pane as it was. */
  lemma ReplayIgnores(trace: seq<Effect>, e: Effect)
    requires e.Fetch? || e.Emit?
    ensures Replay(trace + [e]) == Replay(trace)
  {
    assert (trace + [e])[..|trace|] == trace;
  }

  lemma ReplayClear(trace: seq<Effect>)
    ensures Replay(trace + [ClearPane]) == []
  {
  }

  lemma ReplayAppend(trace: seq<Effect>, b: Bubble)
    ensures Replay(trace + [Append(b)]) == Replay(trace) + [b]
  {
    assert (trace + [Append(b)])[..|trace|] == trace;
  }

  /** The `send_message` emissions among the effects, in order. */
  function Emissions(trace: seq<Effect>): seq<SendPayload>
    decreases |trace|
  {
    if trace == [] then []
    else
      var before := Emissions(trace[..|trace| - 1]);
      match trace[|trace| - 1]
      case Emit(p) => before + [p]
      case _ => before
  }

  /** A send records exactly one emission. */
  lemma EmitThenAppend(trace: seq<Effect>, p: SendPayload, b: Bubble)
    ensures Emissions(trace + [Emit(p), Append(b)]) == Emissions(trace) + [p]
  {
    var t := trace + [Emit(p), Append(b)];
    assert t[..|t| - 1] == trace + [Emit(p)];
    assert (trace + [Emit(p)])[..|trace|] == trace;
  }

  /** The inbound filter of `receive_message`: a peer is selected and the
      sender id is strictly equal to the peer's id. */
  predicate ShowsInbound(peer: Option<UserJson>, data: ReceivePayload) {
    peer.Some? && StrictEquals(data.senderId, peer.value.id)
  }

  /** The filter as evidently intended: ids compared by their text, as
      JavaScript's `String(a) === String(b)` would. */
  predicate IntendedShowsInbound(peer: Option<UserJson>, data: ReceivePayload) {
    peer.Some? && PyStr(data.senderId) == PyStr(peer.value.id)
  }

  class Session {
    var currentChatUser: Option<UserJson>
    /** The cached directory. */
    var users: seq<UserJson>
    var contacts: ContactList
    /** The message pane. */
    var messages: seq<Bubble>
    /** The composer's text (`messageInput.value`). */
    var input: string
    var trace: seq<Effect>

    /** The pane is what its recorded changes produce, and every body in it
        is markup-free. */
    ghost predicate Valid()
      reads this
    {
      messages == Replay(trace) && forall i :: 0 <= i < |messages| ==> Neutral(messages[i].body)
    }

    constructor ()
      ensures Valid()
      ensures currentChatUser == None && users == [] && contacts == Unrendered
      ensures messages == [] && input == "" && trace == []
    {
      currentChatUser := None;
      users := [];
      contacts := Unrendered;
      messages := [];
      input := "";
      trace := [];
    }

    method DisplayUsers(shown: seq<UserJson>)
      modifies this`contacts
      ensures contacts == ContactListOf(shown)
    {
      contacts := ContactListOf(shown);
    }

    /** `loadUsers` with the outcome of `GET /api/users`. */
    method LoadUsers(response: Response<seq<UserJson>>)
      requires Valid()
      modifies this`users, this`contacts, this`trace
      ensures Valid()
      ensures trace == old(trace) + [Fetch(UsersRequest)]
      ensures users == if response.Ok? then response.body else old(users)
      ensures contacts == match response
                          case Ok(list) => ContactListOf(list)
                          case NotOk => Notice(FailedToLoadUsers)
                          case Threw => Notice(ErrorLoadingUsers)
    {
      ReplayIgnores(trace, Fetch(UsersRequest));
      trace := trace + [Fetch(UsersRequest)];
      match response {
        case Ok(list) =>
          users := list;
          DisplayUsers(list);
        case NotOk =>
          contacts := Notice(FailedToLoadUsers);
        case Threw =>
          contacts := Notice(ErrorLoadingUsers);
      }
    }

    /** `handleSearch` on the search box's value; a non-empty trimmed query
        fetches `GET /api/search/<query>`, whose outcome is given. */
    method HandleSearch(value: string, response: Response<UserJson>)
      requires Valid()
      modifies this`contacts, this`trace
      ensures Valid()
      ensures Trim(value) == "" ==> trace == old(trace) && contacts == ContactListOf(users)
      ensures Trim(value) != "" ==>
                && trace == old(trace) + [Fetch(SearchRequest(Trim(value)))]
                && contacts == match response
                               case Ok(user) => ContactListOf([user])
                               case NotOk => Notice(NoUserFound)
                               case Threw => Notice(SearchError)
    {
      var query := Trim(value);
      if query == "" {
        DisplayUsers(users);
        return;
      }
      ReplayIgnores(trace, Fetch(SearchRequest(query)));
      trace := trace + [Fetch(SearchRequest(query))];
      match response {
        case Ok(user) => DisplayUsers([user]);
        case NotOk => contacts := Notice(NoUserFound);
        case Threw => contacts := Notice(SearchError);
      }
    }

    /** `addMessageToChat`: append the record, unless it throws first. */
    method AddMessageToChat(data: ChatData, own: bool) returns (threw: bool)
      requires Valid()
      modifies this`messages, this`trace
      ensures Valid()
      ensures threw == Throws(data, own)
      ensures threw ==> messages == old(messages) && trace == old(trace)
      ensures !threw ==> messages == old(messages) + [BubbleOf(data, own)]
                         && trace == old(trace) + [Append(BubbleOf(data, own))]
    {
      if Throws(data, own) {
        return true;
      }
      var bubble := BubbleOf(data, own);
      ReplayAppend(trace, bubble);
      messages := messages + [bubble];
      trace := trace + [Append(bubble)];
      threw := false;
    }

    /** The `forEach` of `loadChatHistory` over the fetched items, into the
        emptied pane: the first item that throws ends it. */
    method RenderHistory(items: seq<HistoryJson>)
      requires Valid() && messages == []
      modifies this`messages, this`trace
      ensures Valid()
      ensures messages == HistoryView(items)
      ensures trace == old(trace) + Appends(HistoryView(items))
    {
      ghost var effects := trace;
      var i := 0;
      while i < |items|
        invariant 0 <= i <= |items|
        invariant forall j :: 0 <= j < i ==> !ItemThrows(items[j])
        invariant messages == BubblesOf(items[..i])
        invariant trace == effects + Appends(messages)
        invariant Valid()
      {
        ghost var before := messages;
        var threw := AddMessageToChat(HistoryData(items[i]), items[i].isOwn);
        if threw {
          break;
        }
        BubblesSnoc(items, i);
        AppendsSnoc(before, BubbleOf(HistoryData(items[i]), items[i].isOwn));
        i := i + 1;
      }
      HistoryStopsAt(items, i);
    }

    /** `loadChatHistory` with the outcome of `GET /api/messages/<id>`: an
        ok response replaces the pane, anything else leaves it alone. */
    method LoadChatHistory(userId: Value, response: Response<seq<HistoryJson>>)
      requires Valid()
      modifies this`messages, this`trace
      ensures Valid()
      ensures messages == if response.Ok? then HistoryView(response.body) else old(messages)
      ensures trace == old(trace) + [Fetch(HistoryRequest(userId))]
                       + (if response.Ok? then [ClearPane] + Appends(HistoryView(response.body)) else [])
    {
      ReplayIgnores(trace, Fetch(HistoryRequest(userId)));
      trace := trace + [Fetch(HistoryRequest(userId))];
      if response.NotOk? || response.Threw? {
        return;
      }
      ReplayClear(trace);
      messages := [];
      trace := trace + [ClearPane];
      RenderHistory(response.body);
    }

    /** `selectUser`: select the peer and load its history. */
    method SelectUser(userId: Value, username: string, name: string, response: Response<seq<HistoryJson>>)
      requires Valid()
      modifies this`currentChatUser, this`messages, this`trace
      ensures Valid()
      ensures currentChatUser == Some(UserJson(userId, username, name))
      ensures messages == if response.Ok? then HistoryView(response.body) else old(messages)
      ensures trace == old(trace) + [Fetch(HistoryRequest(userId))]
                       + (if response.Ok? then [ClearPane] + Appends(HistoryView(response.body)) else [])
    {
      currentChatUser := Some(UserJson(userId, username, name));
      LoadChatHistory(userId, response);
    }

    /** `sendMessage`, the optimistic timestamp `now` standing for
        `new Date().toISOString()`. */
    method SendMessage(now: string)
      requires Valid()
      modifies this`messages, this`trace, this`input
      ensures Valid()
      ensures Trim(old(input)) == "" || old(currentChatUser).None? ==>
                messages == old(messages) && trace == old(trace) && input == old(input)
      ensures Trim(old(input)) != "" && old(currentChatUser).Some? ==>
                var text := Trim(old(input));
                var bubble := BubbleOf(ChatData(text, "You", Some("You"), now), true);
                && trace == old(trace) + [Emit(SendPayload(old(currentChatUser).value.id, text)), Append(bubble)]
                && messages == old(messages) + [bubble]
                && input == ""
                && Emissions(trace) == Emissions(old(trace)) + [SendPayload(old(currentChatUser).value.id, text)]
    {
      var text := Trim(input);
      if text == "" || currentChatUser.None? {
        return;
      }
      var payload := SendPayload(currentChatUser.value.id, text);
      ghost var before := trace;
      ReplayIgnores(trace, Emit(payload));
      trace := trace + [Emit(payload)];
      var threw := AddMessageToChat(ChatData(text, "You", Some("You"), now), true);
      assert trace == before + [Emit(payload), Append(BubbleOf(ChatData(text, "You", Some("You"), now), true))];
      EmitThenAppend(before, payload, BubbleOf(ChatData(text, "You", Some("You"), now), true));
      input := "";
    }

    /** The user edits the composer, `#message-input`. */
    method Type(text: string)
      modifies this`input
      ensures input == text
    {
      input := text;
    }

    /** The composer's `keypress` handler: Enter without Shift sends. */
    method KeyPress(key: string, shift: bool, now: string)
      requires Valid()
      modifies this`messages, this`trace, this`input
      ensures Valid()
      ensures key != "Enter" || shift || Trim(old(input)) == "" || old(currentChatUser).None? ==>
                messages == old(messages) && trace == old(trace) && input == old(input)
      ensures key == "Enter" && !shift && Trim(old(input)) != "" && old(currentChatUser).Some? ==>
                var text := Trim(old(input));
                var bubble := BubbleOf(ChatData(text, "You", Some("You"), now), true);
                && trace == old(trace) + [Emit(SendPayload(old(currentChatUser).value.id, text)), Append(bubble)]
                && messages == old(messages) + [bubble]
                && input == ""
                && Emissions(trace) == Emissions(old(trace)) + [SendPayload(old(currentChatUser).value.id, text)]
    {
      if key == "Enter" && !shift {
        SendMessage(now);
      }
    }

    /** The `receive_message` handler as written: the sender filter is
        `ShowsInbound`, which never passes a relayed message. */
    method ReceiveMessage(data: ReceivePayload)
      requires Valid()
      modifies this`messages, this`trace
      ensures Valid()
      ensures var bubble := BubbleOf(ChatData(data.message, data.senderUsername, Some(data.senderName), data.timestamp), false);
              && messages == (if ShowsInbound(currentChatUser, data) then old(messages) + [bubble] else old(messages))
              && trace == (if ShowsInbound(currentChatUser, data) then old(trace) + [Append(bubble)] else old(trace))
    {
      if currentChatUser.Some? && StrictEquals(data.senderId, currentChatUser.value.id) {
        var threw := AddMessageToChat(ChatData(data.message, data.senderUsername, Some(data.senderName), data.timestamp), false);
      }
    }

    /** The `receive_message` handler with the sender filter as evidently
        intended, `IntendedShowsInbound`. */
    method ReceiveMessageIntended(data: ReceivePayload)
      requires Valid()
      modifies this`messages, this`trace
      ensures Valid()
      ensures var bubble := BubbleOf(ChatData(data.message, data.senderUsername, Some(data.senderName), data.timestamp), false);
              && messages == (if IntendedShowsInbound(currentChatUser, data) then old(messages) + [bubble] else old(messages))
              && trace == (if IntendedShowsInbound(currentChatUser, data) then old(trace) + [Append(bubble)] else old(trace))
    {
      if currentChatUser.Some? && PyStr(data.senderId) == PyStr(currentChatUser.value.id) {
        var threw := AddMessageToChat(ChatData(data.message, data.senderUsername, Some(data.senderName), data.timestamp), false);
      }
    }

    /** The `reconnect` handler: reload the selected peer's history. */
    method Reconnect(response: Response<seq<HistoryJson>>) returns (line: string)
      requires Valid()
      modifies this`messages, this`trace
      ensures Valid()
      ensures line == "Reconnected to server"
      ensures old(currentChatUser).None? ==> messages == old(messages) && trace == old(trace)
      ensures old(currentChatUser).Some? ==>
                && messages == (if response.Ok? then HistoryView(response.body) else old(messages))
                && trace == old(trace) + [Fetch(HistoryRequest(old(currentChatUser).value.id))]
                            + (if response.Ok? then [ClearPane] + Appends(HistoryView(response.body)) else [])
    {
      line := "Reconnected to server";
      if currentChatUser.Some? {
        LoadChatHistory(currentChatUser.value.id, response);
      }
    }

    /** The `message_sent` handler only logs. */
    method MessageSent(data: SentPayload) returns (line: string)
      ensures line == "Message sent successfully" && unchanged(this)
    {
      line := "Message sent successfully";
    }

    /** The `connect` handler only logs. */
    method Connected() returns (line: string)
      ensures line == "Connected to server" && unchanged(this)
    {
      line := "Connected to server";
    }

    /** The `disconnect` handler only logs. */
    method Disconnected() returns (line: string)
      ensures line == "Disconnected from server" && unchanged(this)
    {
      line := "Disconnected from server";
    }

    /** The `connect_error` handler only logs. */
    method ConnectError(error: string) returns (line: string)
      ensures line == "Connection error:" && unchanged(this)
    {
      line := "Connection error:";
    }
  }
}
