/** The Flask server (app.py): the `users` and `messages` tables of its
    SQLite database, the queries behind its JSON routes, the sign-up and
    login checks, the `send_message` relay and the Socket.IO rooms.

    Every comparison in the SQL is between a column of INTEGER affinity and
    a bound parameter; SQLite then converts a parameter that reads as an
    integer to that integer.  That is why `id != ?` with the logged-in
    user's id, which is a Python str, still compares numbers. */
module App {
  import opened Options
  import opened Values
  import opened Wire

  /** A row of `users`: autoincrement id, unique username, password hash
      and the nullable display name. */
  datatype UserRow = UserRow(id: nat, username: string, passwordHash: string, name: Option<string>)

  /** A row of `messages`, sender and receiver as their INTEGER columns
      store them. */
  datatype MessageRow = MessageRow(id: nat, sender: Value, receiver: Value, text: string, timestamp: string)

  /** The logged-in user object (`class User`): its id is the text of the
      row id, its name falls back to the username. */
  datatype User = User(id: string, username: string, name: string)

  /** Python's `a or b` for a nullable string: an absent or empty a yields b. */
  function OrElse(a: Option<string>, b: string): (r: string)
    ensures r == b || (a == Some(r) && r != "")
    ensures (a == None || a == Some("")) ==> r == b
    ensures a.Some? && a.value != "" ==> r == a.value
  {
    if a.Some? && a.value != "" then a.value else b
  }

  /** `User.__init__`: the id becomes text that a numeric column reads back
      as the original id; the name is the given one unless that is absent
      or empty. */
  function MakeUser(id: int, username: string, name: Option<string>): (u: User)
    ensures u.id == IntText(id) && IntegerAffinity(Str(u.id)) == Int(id)
    ensures u.username == username
    ensures u.name == OrElse(name, username)
  {
    AffinityOfIntText(id);
    User(IntText(id), username, OrElse(name, username))
  }

  /** SQL `column = ?` for a column of INTEGER affinity. */
  predicate SqlEquals(column: Value, param: Value) {
    column == IntegerAffinity(param)
  }

  predicate UniqueUsernames(users: seq<UserRow>) {
    forall i, j :: 0 <= i < j < |users| ==> users[i].username != users[j].username
  }

  predicate UserIdsIncreasing(users: seq<UserRow>) {
    forall i, j :: 0 <= i < j < |users| ==> users[i].id < users[j].id
  }

  predicate MessageIdsIncreasing(messages: seq<MessageRow>) {
    forall i, j :: 0 <= i < j < |messages| ==> messages[i].id < messages[j].id
  }

  /** A value as an INTEGER column holds it after storing. */
  predicate Stored(v: Value) {
    IntegerAffinity(v) == v
  }

  // ---------------------------------------------------------------------
  // GET /api/users

  /** The JSON of one user: numeric id, name falling back to the username. */
  function UserJsonOf(u: UserRow): UserJson {
    UserJson(Int(u.id), u.username, OrElse(u.name, u.username))
  }

  /** `SELECT id, username, name FROM users WHERE id != ?` projected to JSON. */
  function GetUsers(users: seq<UserRow>, caller: User): seq<UserJson>
    decreases |users|
  {
    if users == [] then []
    else
      (if SqlEquals(Int(users[0].id), Str(caller.id)) then [] else [UserJsonOf(users[0])])
      + GetUsers(users[1..], caller)
  }

  /** Every user but the caller is listed, and nothing else. */
  lemma {:induction false} GetUsersExact(users: seq<UserRow>, caller: User, n: int)
    requires caller.id == IntText(n)
    ensures forall x :: x in GetUsers(users, caller) <==> exists u :: u in users && u.id != n && x == UserJsonOf(u)
    decreases |users|
  {
    if users != [] {
      AffinityOfIntText(n);
      GetUsersExact(users[1..], caller, n);
      assert users == [users[0]] + users[1..];
    }
  }

  /** Numeric ids, strictly increasing along the list. */
  predicate JsonIdsIncreasing(list: seq<UserJson>) {
    forall i, j :: 0 <= i < j < |list| ==> list[i].id.Int? && list[j].id.Int? && list[i].id.n < list[j].id.n
  }

  /** A listing of users whose ids all exceed `b` lists only ids above `b`. */
  lemma {:induction false} GetUsersIdsAbove(users: seq<UserRow>, caller: User, b: int)
    requires forall i :: 0 <= i < |users| ==> users[i].id > b
    ensures forall x :: x in GetUsers(users, caller) ==> x.id.Int? && x.id.n > b
    decreases |users|
  {
    if users != [] {
      GetUsersIdsAbove(users[1..], caller, b);
    }
  }

  /** In a table with increasing ids the listing follows table order and
      lists nobody twice. */
  lemma {:induction false} GetUsersInTableOrder(users: seq<UserRow>, caller: User)
    requires UserIdsIncreasing(users)
    ensures JsonIdsIncreasing(GetUsers(users, caller))
    decreases |users|
  {
    if users != [] {
      var rest := GetUsers(users[1..], caller);
      var h := if SqlEquals(Int(users[0].id), Str(caller.id)) then [] else [UserJsonOf(users[0])];
      var r := h + rest;
      assert GetUsers(users, caller) == r;
      GetUsersInTableOrder(users[1..], caller);
      forall i | 0 <= i < |users[1..]|
        ensures users[1..][i].id > users[0].id
      {
        assert users[1..][i] == users[i + 1];
      }
      GetUsersIdsAbove(users[1..], caller, users[0].id);
      forall i, j | 0 <= i < j < |r|
        ensures r[i].id.Int? && r[j].id.Int? && r[i].id.n < r[j].id.n
      {
        assert r[j] == rest[j - |h|];
        if i < |h| {
          assert r[i] == UserJsonOf(users[0]);
          assert rest[j - |h|] in rest;
        } else {
          assert r[i] == rest[i - |h|];
        }
      }
    }
  }

  // ---------------------------------------------------------------------
  // GET /api/search/<username>

  /** `SELECT ... WHERE username = ? AND id != ?`, first row, or a 404. */
  function SearchUser(users: seq<UserRow>, caller: User, username: string): Result<UserJson>
    decreases |users|
  {
    if users == [] then Err("No user found")
    else if users[0].username == username && !SqlEquals(Int(users[0].id), Str(caller.id)) then
      Ok(UserJsonOf(users[0]))
    else SearchUser(users[1..], caller, username)
  }

  /** The search finds a user exactly when one other than the caller has
      that username, returns such a user, and fails with "No user found"
      otherwise. */
  lemma {:induction false} SearchUserExact(users: seq<UserRow>, caller: User, n: int, username: string)
    requires caller.id == IntText(n)
    ensures SearchUser(users, caller, username).Ok? <==>
              exists u :: u in users && u.username == username && u.id != n
    ensures SearchUser(users, caller, username).Ok? ==>
              exists u :: u in users && u.username == username && u.id != n
                && SearchUser(users, caller, username).value == UserJsonOf(u)
    ensures SearchUser(users, caller, username).Err? ==>
              SearchUser(users, caller, username).message == "No user found"
    decreases |users|
  {
    if users != [] {
      AffinityOfIntText(n);
      SearchUserExact(users[1..], caller, n, username);
      assert users == [users[0]] + users[1..];
    }
  }

  // ---------------------------------------------------------------------
  // POST /login

  /** `SELECT ... FROM users WHERE username = ?`, first row. */
  function FindByUsername(users: seq<UserRow>, username: string): (r: Option<UserRow>)
    ensures r.Some? <==> exists u :: u in users && u.username == username
    ensures r.Some? ==> r.value in users && r.value.username == username
    decreases |users|
  {
    if users == [] then None
    else if users[0].username == username then Some(users[0])
    else
      var r := FindByUsername(users[1..], username);
      assert forall u :: u in users ==> u == users[0] || u in users[1..];
      r
  }

  /** The login check: the row for the username, then the password check,
      which stands for werkzeug's `check_password_hash`. */
  function Login(users: seq<UserRow>, username: string, password: string,
                 check: (string, string) -> bool): Result<User>
  {
    match FindByUsername(users, username)
    case Some(row) =>
      if check(row.passwordHash, password) then Ok(MakeUser(row.id, row.username, row.name))
      else Err("Invalid username or password")
    case None => Err("Invalid username or password")
  }

  lemma SameUsernameSameRow(users: seq<UserRow>, a: UserRow, b: UserRow)
    requires UniqueUsernames(users) && a in users && b in users && a.username == b.username
    ensures a == b
  {
    var i :| 0 <= i < |users| && users[i] == a;
    var j :| 0 <= j < |users| && users[j] == b;
    assert !(i < j) && !(j < i);
  }

  /** Login succeeds exactly when the username exists and its password
      check passes, and then yields that user. */
  lemma LoginIff(users: seq<UserRow>, username: string, password: string, check: (string, string) -> bool)
    requires UniqueUsernames(users)
    ensures Login(users, username, password, check).Ok? <==>
              exists u :: u in users && u.username == username && check(u.passwordHash, password)
    ensures Login(users, username, password, check).Ok? ==>
              exists u :: u in users && u.username == username
                && Login(users, username, password, check).value == MakeUser(u.id, u.username, u.name)
    ensures Login(users, username, password, check).Err? ==>
              Login(users, username, password, check).message == "Invalid username or password"
  {
    var found := FindByUsername(users, username);
    if u :| u in users && u.username == username && check(u.passwordHash, password) {
      SameUsernameSameRow(users, u, found.value);
    }
  }

  // ---------------------------------------------------------------------
  // GET /api/messages/<int:user_id>

  /** A row of `messages m JOIN users u ON m.sender_id = u.id`, with the
      columns the query selects. */
  datatype JoinedRow = JoinedRow(text: string, timestamp: string, username: string, name: Option<string>, sender: Value)

  function Joined(m: MessageRow, u: UserRow): JoinedRow {
    JoinedRow(m.text, m.timestamp, u.username, u.name, m.sender)
  }

  /** `(m.sender_id = a AND m.receiver_id = b) OR (m.sender_id = b AND m.receiver_id = a)` */
  predicate Between(m: MessageRow, a: Value, b: Value) {
    (SqlEquals(m.sender, a) && SqlEquals(m.receiver, b)) || (SqlEquals(m.sender, b) && SqlEquals(m.receiver, a))
  }

  /** The message between users n and peer, in either direction. */
  predicate InConversation(m: MessageRow, n: int, peer: int) {
    (m.sender == Int(n) && m.receiver == Int(peer)) || (m.sender == Int(peer) && m.receiver == Int(n))
  }

  /** The join of one message with the users table. */
  function JoinSender(m: MessageRow, users: seq<UserRow>): seq<JoinedRow>
    decreases |users|
  {
    if users == [] then []
    else (if m.sender == Int(users[0].id) then [Joined(m, users[0])] else []) + JoinSender(m, users[1..])
  }

  /** The filtered join, before ORDER BY. */
  function Conversation(messages: seq<MessageRow>, users: seq<UserRow>, a: Value, b: Value): seq<JoinedRow>
    decreases |messages|
  {
    if messages == [] then []
    else (if Between(messages[0], a, b) then JoinSender(messages[0], users) else [])
         + Conversation(messages[1..], users, a, b)
  }

  lemma {:induction false} JoinSenderSource(m: MessageRow, users: seq<UserRow>, row: JoinedRow) returns (u: UserRow)
    requires row in JoinSender(m, users)
    ensures u in users && m.sender == Int(u.id) && row == Joined(m, u)
    decreases |users|
  {
    if m.sender == Int(users[0].id) && row == Joined(m, users[0]) {
      u := users[0];
    } else {
      u := JoinSenderSource(m, users[1..], row);
    }
  }

  lemma {:induction false} JoinSenderIncludes(m: MessageRow, users: seq<UserRow>, u: UserRow)
    requires u in users && m.sender == Int(u.id)
    ensures Joined(m, u) in JoinSender(m, users)
    decreases |users|
  {
    if users[0] != u {
      JoinSenderIncludes(m, users[1..], u);
    }
  }

  /** Each row of the filtered join comes from a selected message and its
      sender's row. */
  lemma {:induction false} ConversationSource(messages: seq<MessageRow>, users: seq<UserRow>, a: Value, b: Value,
                                              row: JoinedRow) returns (m: MessageRow, u: UserRow)
    requires row in Conversation(messages, users, a, b)
    ensures m in messages && u in users && Between(m, a, b) && m.sender == Int(u.id) && row == Joined(m, u)
    decreases |messages|
  {
    var head := if Between(messages[0], a, b) then JoinSender(messages[0], users) else [];
    if row in head {
      m := messages[0];
      u := JoinSenderSource(m, users, row);
    } else {
      m, u := ConversationSource(messages[1..], users, a, b, row);
    }
  }

  /** Each selected message with a sender row is in the filtered join. */
  lemma {:induction false} ConversationIncludes(messages: seq<MessageRow>, users: seq<UserRow>, a: Value, b: Value,
                                                m: MessageRow, u: UserRow)
    requires m in messages && u in users && Between(m, a, b) && m.sender == Int(u.id)
    ensures Joined(m, u) in Conversation(messages, users, a, b)
    decreases |messages|
  {
    if messages[0] == m {
      JoinSenderIncludes(m, users, u);
    } else {
      ConversationIncludes(messages[1..], users, a, b, m, u);
    }
  }

  /** The sender's row a message joins with: the first user with its id. */
  function SenderOf(m: MessageRow, users: seq<UserRow>): (r: Option<UserRow>)
    ensures r.Some? ==> r.value in users && m.sender == Int(r.value.id)
    ensures r.None? ==> forall u :: u in users ==> m.sender != Int(u.id)
    decreases |users|
  {
    if users == [] then None
    else if m.sender == Int(users[0].id) then Some(users[0])
    else SenderOf(m, users[1..])
  }

  /** One history row per message between users n and peer that has a
      sender row, in table order: the conversation as a lookup of each
      message's sender. */
  function SenderRows(messages: seq<MessageRow>, users: seq<UserRow>, n: int, peer: int): (r: seq<JoinedRow>)
    ensures |r| <= |messages|
    decreases |messages|
  {
    if messages == [] then []
    else
      var m := messages[0];
      var sender := SenderOf(m, users);
      (if InConversation(m, n, peer) && sender.Some? then [Joined(m, sender.value)] else [])
      + SenderRows(messages[1..], users, n, peer)
  }

  lemma {:induction false} JoinSenderNone(m: MessageRow, users: seq<UserRow>)
    requires forall u :: u in users ==> m.sender != Int(u.id)
    ensures JoinSender(m, users) == []
    decreases |users|
  {
    if users != [] {
      assert users[0] in users;
      JoinSenderNone(m, users[1..]);
    }
  }

  /** With unique user ids the join gives a message at most one row: the
      one with its sender's row. */
  lemma {:induction false} JoinSenderIsSender(m: MessageRow, users: seq<UserRow>)
    requires UserIdsIncreasing(users)
    ensures JoinSender(m, users) == if SenderOf(m, users).Some? then [Joined(m, SenderOf(m, users).value)] else []
    ensures |JoinSender(m, users)| <= 1
    decreases |users|
  {
    if users != [] {
      if m.sender == Int(users[0].id) {
        forall u | u in users[1..]
          ensures m.sender != Int(u.id)
        {
          var k :| 0 <= k < |users[1..]| && users[1..][k] == u;
          assert users[k + 1] == u;
        }
        JoinSenderNone(m, users[1..]);
      } else {
        JoinSenderIsSender(m, users[1..]);
      }
    }
  }

  /** The filtered join, with the caller's text id, is the sender lookup:
      each message between the two users that has a sender row yields
      exactly one row. */
  lemma {:induction false} ConversationIsSenderRows(messages: seq<MessageRow>, users: seq<UserRow>, caller: User, n: int, peer: nat)
    requires caller.id == IntText(n) && UserIdsIncreasing(users)
    ensures Conversation(messages, users, Str(caller.id), Int(peer)) == SenderRows(messages, users, n, peer)
    decreases |messages|
  {
    if messages != [] {
      BetweenIsConversation(messages[0], caller, n, peer);
      JoinSenderIsSender(messages[0], users);
      ConversationIsSenderRows(messages[1..], users, caller, n, peer);
    }
  }

  predicate SortedByTimestamp(rows: seq<JoinedRow>) {
    forall i :: 0 < i < |rows| ==> TextLe(rows[i - 1].timestamp, rows[i].timestamp)
  }

  function InsertByTimestamp(x: JoinedRow, rows: seq<JoinedRow>): seq<JoinedRow>
    decreases |rows|
  {
    if rows == [] then [x]
    else if TextLe(x.timestamp, rows[0].timestamp) then [x] + rows
    else [rows[0]] + InsertByTimestamp(x, rows[1..])
  }

  /** `ORDER BY m.timestamp ASC`; rows with equal timestamps keep their
      order, one of the orders SQLite may produce. */
  function SortByTimestamp(rows: seq<JoinedRow>): seq<JoinedRow>
    decreases |rows|
  {
    if rows == [] then [] else InsertByTimestamp(rows[0], SortByTimestamp(rows[1..]))
  }

  lemma InsertStartsWith(x: JoinedRow, rows: seq<JoinedRow>)
    ensures |InsertByTimestamp(x, rows)| > 0
    ensures InsertByTimestamp(x, rows)[0] == x || (rows != [] && InsertByTimestamp(x, rows)[0] == rows[0])
  {
  }

  lemma {:induction false} InsertPermutes(x: JoinedRow, rows: seq<JoinedRow>)
    ensures multiset(InsertByTimestamp(x, rows)) == multiset(rows) + multiset{x}
    decreases |rows|
  {
    if rows != [] {
      assert rows == [rows[0]] + rows[1..];
      if !TextLe(x.timestamp, rows[0].timestamp) {
        InsertPermutes(x, rows[1..]);
      }
    }
  }

  lemma {:induction false} InsertKeepsSorted(x: JoinedRow, rows: seq<JoinedRow>)
    requires SortedByTimestamp(rows)
    ensures SortedByTimestamp(InsertByTimestamp(x, rows))
    decreases |rows|
  {
    if rows != [] {
      if TextLe(x.timestamp, rows[0].timestamp) {
        var r := [x] + rows;
        forall i | 0 < i < |r|
          ensures TextLe(r[i - 1].timestamp, r[i].timestamp)
        {
          if i > 1 {
            assert r[i - 1] == rows[i - 2] && r[i] == rows[i - 1];
          }
        }
      } else {
        TextLeTotal(x.timestamp, rows[0].timestamp);
        var tail := InsertByTimestamp(x, rows[1..]);
        InsertKeepsSorted(x, rows[1..]);
        InsertStartsWith(x, rows[1..]);
        assert TextLe(rows[0].timestamp, tail[0].timestamp) by {
          if tail[0] != x {
            assert tail[0] == rows[1];
          }
        }
        var r := [rows[0]] + tail;
        forall i | 0 < i < |r|
          ensures TextLe(r[i - 1].timestamp, r[i].timestamp)
        {
          if i > 1 {
            assert r[i - 1] == tail[i - 2] && r[i] == tail[i - 1];
          }
        }
      }
    }
  }

  /** The sort orders by timestamp and is a permutation. */
  lemma {:induction false} SortIsSortedPermutation(rows: seq<JoinedRow>)
    ensures SortedByTimestamp(SortByTimestamp(rows))
    ensures multiset(SortByTimestamp(rows)) == multiset(rows)
    decreases |rows|
  {
    if rows != [] {
      var tail := SortByTimestamp(rows[1..]);
      SortIsSortedPermutation(rows[1..]);
      InsertKeepsSorted(rows[0], tail);
      InsertPermutes(rows[0], tail);
      assert SortByTimestamp(rows) == InsertByTimestamp(rows[0], tail);
      assert multiset(rows) == multiset{rows[0]} + multiset(rows[1..]) by {
        assert rows == [rows[0]] + rows[1..];
      }
    }
  }

  /** One element of the response: `is_own` is `str(sender_id) == str(current_user.id)`. */
  function HistoryOf(row: JoinedRow, caller: User): HistoryJson {
    HistoryJson(row.text, row.timestamp, row.username, row.name, PyStr(row.sender) == caller.id)
  }

  function Project(rows: seq<JoinedRow>, caller: User): (r: seq<HistoryJson>)
    ensures |r| == |rows|
    ensures forall i :: 0 <= i < |rows| ==> r[i] == HistoryOf(rows[i], caller)
  {
    seq(|rows|, i requires 0 <= i < |rows| => HistoryOf(rows[i], caller))
  }

  function GetMessages(messages: seq<MessageRow>, users: seq<UserRow>, caller: User, peer: nat): seq<HistoryJson> {
    Project(SortByTimestamp(Conversation(messages, users, Str(caller.id), Int(peer))), caller)
  }

  /** The response is the projection of some timestamp-ordered permutation
      of the conversation's joined rows; timestamps never decrease. */
  lemma GetMessagesOrdered(messages: seq<MessageRow>, users: seq<UserRow>, caller: User, peer: nat)
    ensures exists rows :: SortedByTimestamp(rows)
              && multiset(rows) == multiset(Conversation(messages, users, Str(caller.id), Int(peer)))
              && GetMessages(messages, users, caller, peer) == Project(rows, caller)
    ensures forall i :: 0 < i < |GetMessages(messages, users, caller, peer)| ==>
              TextLe(GetMessages(messages, users, caller, peer)[i - 1].timestamp,
                     GetMessages(messages, users, caller, peer)[i].timestamp)
  {
    SortIsSortedPermutation(Conversation(messages, users, Str(caller.id), Int(peer)));
  }

  /** With unique user ids, the response is the projection of a
      timestamp-ordered permutation of the sender lookup: one row for each
      message between the caller (id n) and the peer that has a sender row,
      so a message is neither lost nor repeated. */
  lemma GetMessagesOnePerMessage(messages: seq<MessageRow>, users: seq<UserRow>, caller: User, n: int, peer: nat)
    requires caller.id == IntText(n) && UserIdsIncreasing(users)
    ensures exists rows :: SortedByTimestamp(rows)
              && multiset(rows) == multiset(SenderRows(messages, users, n, peer))
              && GetMessages(messages, users, caller, peer) == Project(rows, caller)
    ensures |GetMessages(messages, users, caller, peer)| == |SenderRows(messages, users, n, peer)|
  {
    ConversationIsSenderRows(messages, users, caller, n, peer);
    var rows := SortByTimestamp(SenderRows(messages, users, n, peer));
    SortIsSortedPermutation(SenderRows(messages, users, n, peer));
    assert |rows| == |multiset(rows)|;
  }

  lemma {:induction false} SortedOrdersAll(rows: seq<JoinedRow>, i: int, j: int)
    requires SortedByTimestamp(rows) && 0 <= i < j < |rows|
    ensures TextLe(rows[i].timestamp, rows[j].timestamp)
    decreases j - i
  {
    if i + 1 < j {
      SortedOrdersAll(rows, i, j - 1);
      TextLeTransitive(rows[i].timestamp, rows[j - 1].timestamp, rows[j].timestamp);
    }
  }

  /** Every earlier element of the response has a timestamp no later than
      every later one. */
  lemma GetMessagesOrderedPairwise(messages: seq<MessageRow>, users: seq<UserRow>, caller: User, peer: nat, i: int, j: int)
    requires 0 <= i < j < |GetMessages(messages, users, caller, peer)|
    ensures TextLe(GetMessages(messages, users, caller, peer)[i].timestamp,
                   GetMessages(messages, users, caller, peer)[j].timestamp)
  {
    var rows := SortByTimestamp(Conversation(messages, users, Str(caller.id), Int(peer)));
    SortIsSortedPermutation(Conversation(messages, users, Str(caller.id), Int(peer)));
    SortedOrdersAll(rows, i, j);
  }

  lemma ProjectMembers(rows: seq<JoinedRow>, caller: User)
    ensures forall x :: x in Project(rows, caller) <==> exists row :: row in rows && x == HistoryOf(row, caller)
  {
    var r := Project(rows, caller);
    forall x | x in r
      ensures exists row :: row in rows && x == HistoryOf(row, caller)
    {
      var i :| 0 <= i < |r| && r[i] == x;
      assert rows[i] in rows;
    }
  }

  /** The query's filter, with the caller's text id, selects the
      conversation between the two numeric ids. */
  lemma BetweenIsConversation(m: MessageRow, caller: User, n: int, peer: nat)
    requires caller.id == IntText(n)
    ensures Between(m, Str(caller.id), Int(peer)) <==> InConversation(m, n, peer)
  {
    AffinityOfIntText(n);
  }

  /** For a joined row, `is_own` holds exactly when the caller sent it. */
  lemma JoinedHistory(m: MessageRow, u: UserRow, caller: User, n: int)
    requires caller.id == IntText(n) && m.sender == Int(u.id)
    ensures HistoryOf(Joined(m, u), caller) == HistoryJson(m.text, m.timestamp, u.username, u.name, u.id == n)
  {
    IntTextInjective(u.id, n);
  }

  /** The history the caller (id n) sees of a message from its sender row. */
  function Expected(m: MessageRow, u: UserRow, n: int): HistoryJson {
    HistoryJson(m.text, m.timestamp, u.username, u.name, u.id == n)
  }

  lemma GetMessagesSound(messages: seq<MessageRow>, users: seq<UserRow>, caller: User, n: int, peer: nat, x: HistoryJson)
    requires caller.id == IntText(n) && x in GetMessages(messages, users, caller, peer)
    ensures exists m, u ::
              m in messages && u in users && InConversation(m, n, peer) && m.sender == Int(u.id) && x == Expected(m, u, n)
  {
    var a, b := Str(caller.id), Int(peer);
    var conv := Conversation(messages, users, a, b);
    var sorted := SortByTimestamp(conv);
    var r := Project(sorted, caller);
    assert r == GetMessages(messages, users, caller, peer);
    var i :| 0 <= i < |r| && r[i] == x;
    var row := sorted[i];
    assert x == HistoryOf(row, caller);
    assert row in conv by {
      SortIsSortedPermutation(conv);
      assert row in multiset(sorted);
    }
    var m, u := ConversationSource(messages, users, a, b, row);
    BetweenIsConversation(m, caller, n, peer);
    JoinedHistory(m, u, caller, n);
    assert x == Expected(m, u, n);
  }

  lemma GetMessagesComplete(messages: seq<MessageRow>, users: seq<UserRow>, caller: User, n: int, peer: nat,
                            m: MessageRow, u: UserRow)
    requires caller.id == IntText(n)
    requires m in messages && u in users && InConversation(m, n, peer) && m.sender == Int(u.id)
    ensures Expected(m, u, n) in GetMessages(messages, users, caller, peer)
  {
    var a, b := Str(caller.id), Int(peer);
    var conv := Conversation(messages, users, a, b);
    var sorted := SortByTimestamp(conv);
    SortIsSortedPermutation(conv);
    BetweenIsConversation(m, caller, n, peer);
    JoinedHistory(m, u, caller, n);
    var row := Joined(m, u);
    ConversationIncludes(messages, users, a, b, m, u);
    assert row in multiset(sorted);
    ProjectMembers(sorted, caller);
  }

  /** The response holds exactly the messages between the caller (id n) and
      the peer, in either direction, that have a sender row; `is_own` says
      whether the caller sent it. */
  lemma GetMessagesExact(messages: seq<MessageRow>, users: seq<UserRow>, caller: User, n: int, peer: nat)
    requires caller.id == IntText(n)
    ensures forall x :: x in GetMessages(messages, users, caller, peer) <==>
              exists m, u ::
                m in messages && u in users && InConversation(m, n, peer) && m.sender == Int(u.id) && x == Expected(m, u, n)
  {
    forall x | x in GetMessages(messages, users, caller, peer)
      ensures exists m, u ::
                m in messages && u in users && InConversation(m, n, peer) && m.sender == Int(u.id) && x == Expected(m, u, n)
    {
      GetMessagesSound(messages, users, caller, n, peer, x);
    }
    forall m, u | m in messages && u in users && InConversation(m, n, peer) && m.sender == Int(u.id)
      ensures Expected(m, u, n) in GetMessages(messages, users, caller, peer)
    {
      GetMessagesComplete(messages, users, caller, n, peer, m, u);
    }
  }

  // ---------------------------------------------------------------------
  // Socket.IO

  /** A socket's membership of a room. */
  datatype Membership = Membership(socket: nat, room: string)

  /** `emit(..., room=...)`, or `emit(...)` back to the requesting socket. */
  datatype Target = ToRoom(room: string) | ToSocket(socket: nat)

  datatype ServerEvent = Receive(receive: ReceivePayload) | Sent(sent: SentPayload)

  datatype Emission = Emission(target: Target, event: ServerEvent)

  /** f"user_{id}" */
  function RoomName(id: string): string {
    "user_" + id
  }

  /** Rooms of distinct user ids are distinct. */
  lemma RoomNameInjective(a: int, b: int)
    ensures RoomName(IntText(a)) == RoomName(IntText(b)) <==> a == b
  {
    if RoomName(IntText(a)) == RoomName(IntText(b)) {
      assert RoomName(IntText(a))[5..] == IntText(a);
      assert RoomName(IntText(b))[5..] == IntText(b);
      IntTextInjective(a, b);
    }
  }

  /** The sockets an emission reaches. */
  function Recipients(rooms: set<Membership>, target: Target): set<nat> {
    match target
    case ToRoom(r) => set m | m in rooms && m.room == r :: m.socket
    case ToSocket(s) => {s}
  }

  /** The `receive_message` payload: the sender's id is the user object's
      text id. */
  function RelayPayload(sender: User, text: string, timestamp: string): ReceivePayload {
    ReceivePayload(text, Str(sender.id), sender.username, sender.name, timestamp)
  }

  /** What an INTEGER column holds is stored as is the next time round. */
  lemma StoredAffinity(v: Value)
    ensures Stored(IntegerAffinity(v))
  {
  }

  /** Some row of the table already has this username. */
  predicate UsernameTaken(users: seq<UserRow>, username: string) {
    exists u :: u in users && u.username == username
  }

  /** The users table: increasing ids up to the AUTOINCREMENT counter,
      usernames UNIQUE. */
  predicate UsersTable(users: seq<UserRow>, last: nat) {
    && UserIdsIncreasing(users)
    && (forall i :: 0 <= i < |users| ==> 1 <= users[i].id <= last)
    && UniqueUsernames(users)
  }

  /** The messages table: increasing ids up to the AUTOINCREMENT counter,
      sender and receiver as INTEGER columns store them. */
  predicate MessagesTable(messages: seq<MessageRow>, last: nat) {
    && MessageIdsIncreasing(messages)
    && (forall i :: 0 <= i < |messages| ==> 1 <= messages[i].id <= last)
    && (forall i :: 0 <= i < |messages| ==> Stored(messages[i].sender) && Stored(messages[i].receiver))
  }

  /** Appending a row with a fresh username and the next id keeps the
      users table's invariants. */
  lemma AppendUserKeepsTable(users: seq<UserRow>, last: nat, row: UserRow)
    requires UsersTable(users, last)
    requires row.id == last + 1
    requires !UsernameTaken(users, row.username)
    ensures UsersTable(users + [row], row.id)
    ensures forall u :: u in users ==> u.id < row.id
  {
    var t := users + [row];
    forall i, j | 0 <= i < j < |t|
      ensures t[i].id < t[j].id && t[i].username != t[j].username
    {
      assert t[i] == users[i];
      if j == |users| {
        assert users[i] in users;
      } else {
        assert t[j] == users[j];
      }
    }
  }

  /** Appending a stored row with the next id keeps the messages table's
      invariants. */
  lemma AppendMessageKeepsTable(messages: seq<MessageRow>, last: nat, row: MessageRow)
    requires MessagesTable(messages, last)
    requires row.id == last + 1 && Stored(row.sender) && Stored(row.receiver)
    ensures MessagesTable(messages + [row], row.id)
    ensures forall m :: m in messages ==> m.id < row.id
  {
    var t := messages + [row];
    forall i, j | 0 <= i < j < |t|
      ensures t[i].id < t[j].id
    {
      assert t[i] == messages[i];
      if j < |messages| {
        assert t[j] == messages[j];
      }
    }
    forall m | m in messages
      ensures m.id < row.id
    {
      var k :| 0 <= k < |messages| && messages[k] == m;
    }
  }

  /** The database and the Socket.IO server state. */
  class Server {
    var users: seq<UserRow>
    var messages: seq<MessageRow>
    /** The largest id each AUTOINCREMENT table has handed out. */
    var lastUserId: nat
    var lastMessageId: nat
    var rooms: set<Membership>
    /** Every emission, in order. */
    var emitted: seq<Emission>

    ghost predicate Valid()
      reads this
    {
      UsersTable(users, lastUserId) && MessagesTable(messages, lastMessageId)
    }

    constructor ()
      ensures Valid()
      ensures users == [] && messages == [] && rooms == {} && emitted == []
      ensures lastUserId == 0 && lastMessageId == 0
    {
      users, messages := [], [];
      lastUserId, lastMessageId := 0, 0;
      rooms, emitted := {}, [];
    }

    /** `POST /signup`: insert the user, or fail on a taken username. The
        password hash is supplied (werkzeug salts it at random). */
    method Signup(username: string, passwordHash: string, nameField: Option<string>) returns (r: Result<User>)
      requires Valid()
      modifies this`users, this`lastUserId
      ensures Valid()
      ensures r.Err? <==> UsernameTaken(old(users), username)
      ensures r.Err? ==> r.message == "Username already exists" && users == old(users) && lastUserId == old(lastUserId)
      ensures r.Ok? ==>
                var id := old(lastUserId) + 1;
                var name := if nameField.Some? then nameField.value else username;
                && lastUserId == id
                && (forall u :: u in old(users) ==> u.id < id)
                && users == old(users) + [UserRow(id, username, passwordHash, Some(name))]
                && r.value == MakeUser(id, username, Some(name))
    {
      var name := if nameField.Some? then nameField.value else username;
      if UsernameTaken(users, username) {
        return Err("Username already exists");
      }
      var id := lastUserId + 1;
      AppendUserKeepsTable(users, lastUserId, UserRow(id, username, passwordHash, Some(name)));
      users := users + [UserRow(id, username, passwordHash, Some(name))];
      lastUserId := id;
      r := Ok(MakeUser(id, username, Some(name)));
    }

    /** `send_message`: store the row, then emit `receive_message` to the
        receiver's room and `message_sent` back to the sending socket. The
        timestamp is the value CURRENT_TIMESTAMP gives the row. */
    method HandleMessage(caller: Option<User>, socket: nat, data: SendPayload, now: string)
      requires Valid()
      modifies this`messages, this`lastMessageId, this`emitted
      ensures Valid()
      ensures caller.None? ==>
                messages == old(messages) && lastMessageId == old(lastMessageId) && emitted == old(emitted)
      ensures caller.Some? ==>
                var id := old(lastMessageId) + 1;
                && lastMessageId == id
                && (forall m :: m in old(messages) ==> m.id < id)
                && messages == old(messages) + [MessageRow(id, IntegerAffinity(Str(caller.value.id)),
                                                           IntegerAffinity(data.receiverId), data.message, now)]
                && emitted == old(emitted) + [
                     Emission(ToRoom(RoomName(PyStr(data.receiverId))), Receive(RelayPayload(caller.value, data.message, now))),
                     Emission(ToSocket(socket), Sent(SentPayload(data.message, data.receiverId, now)))]
    {
      if caller.None? {
        return;
      }
      var user := caller.value;
      var id := lastMessageId + 1;
      var row := MessageRow(id, IntegerAffinity(Str(user.id)), IntegerAffinity(data.receiverId), data.message, now);
      StoredAffinity(Str(user.id));
      StoredAffinity(data.receiverId);
      AppendMessageKeepsTable(messages, lastMessageId, row);
      messages := messages + [row];
      lastMessageId := id;
      emitted := emitted + [Emission(ToRoom(RoomName(PyStr(data.receiverId))), Receive(RelayPayload(user, data.message, now)))];
      emitted := emitted + [Emission(ToSocket(socket), Sent(SentPayload(data.message, data.receiverId, now)))];
    }

    /** `connect`: refuse an anonymous socket, else join the user's room. */
    method Connect(caller: Option<User>, socket: nat) returns (accepted: bool)
      requires Valid()
      modifies this`rooms
      ensures Valid()
      ensures accepted <==> caller.Some?
      ensures rooms == if caller.Some? then old(rooms) + {Membership(socket, RoomName(caller.value.id))} else old(rooms)
    {
      if caller.None? {
        return false;
      }
      rooms := rooms + {Membership(socket, RoomName(caller.value.id))};
      accepted := true;
    }

    /** `disconnect`: an authenticated socket leaves the user's room. */
    method Disconnect(caller: Option<User>, socket: nat)
      requires Valid()
      modifies this`rooms
      ensures Valid()
      ensures rooms == if caller.Some? then old(rooms) - {Membership(socket, RoomName(caller.value.id))} else old(rooms)
    {
      if caller.Some? {
        rooms := rooms - {Membership(socket, RoomName(caller.value.id))};
      }
    }
  }
}
