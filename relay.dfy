/** Where the server and the client meet: the ids the directory hands the
    client, the `send_message` the client emits, and the `receive_message`
    the server relays back into another client's session. */
module Relay {
  import opened Options
  import opened Values
  import opened Wire
  import opened App
  import opened Script
  import opened Html

  /** Every user the directory or the search hands the client carries a
      numeric id. */
  lemma DirectoryIdsAreNumbers(users: seq<UserRow>, viewer: User, n: int, query: string)
    requires viewer.id == IntText(n)
    ensures forall x :: x in GetUsers(users, viewer) ==> x.id.Int? && x.id != Int(n)
    ensures SearchUser(users, viewer, query).Ok? ==> SearchUser(users, viewer, query).value.id.Int?
  {
    GetUsersExact(users, viewer, n);
    SearchUserExact(users, viewer, n, query);
  }

  /** As written, a relayed message never reaches the pane: its sender id
      is the sender's text id, the selected peer's id is the number from
      the directory, and `===` never equates a string with a number. */
  lemma RelayedMessageIsNeverShown(users: seq<UserRow>, viewer: User, n: int, query: string,
                                   peer: UserJson, sender: User, text: string, timestamp: string)
    requires viewer.id == IntText(n)
    requires peer in GetUsers(users, viewer) || SearchUser(users, viewer, query) == Result.Ok(peer)
    ensures !ShowsInbound(Some(peer), RelayPayload(sender, text, timestamp))
  {
    DirectoryIdsAreNumbers(users, viewer, n, query);
  }

  /** The same at the session: with a peer from the directory or the
      search selected, the handler as written leaves the pane and its
      recorded changes as they were when any relayed message arrives. */
  method RelayLeavesPaneUnchanged(page: Session, users: seq<UserRow>, viewer: User, n: int, query: string,
                                  peer: UserJson, sender: User, text: string, timestamp: string)
    requires viewer.id == IntText(n)
    requires peer in GetUsers(users, viewer) || SearchUser(users, viewer, query) == Result.Ok(peer)
    requires page.Valid() && page.currentChatUser == Some(peer)
    modifies page
    ensures page.Valid()
    ensures page.messages == old(page.messages) && page.trace == old(page.trace)
  {
    RelayedMessageIsNeverShown(users, viewer, n, query, peer, sender, text, timestamp);
    page.ReceiveMessage(RelayPayload(sender, text, timestamp));
  }

  /** The filter as intended shows a relayed message exactly when its
      sender is the selected peer. */
  lemma IntendedFilterShowsExactlyPeer(peer: UserJson, k: int, n: int, username: string, name: Option<string>,
                                       text: string, timestamp: string)
    requires peer.id == Int(k)
    ensures IntendedShowsInbound(Some(peer), RelayPayload(MakeUser(n, username, name), text, timestamp)) <==> n == k
  {
    IntTextInjective(n, k);
  }

  /** The room a message to receiver j is emitted to is the room user k's
      sockets join on connect exactly when j is k. */
  lemma ReceiverRoomIsUsersRoom(j: int, k: int, username: string, name: Option<string>)
    ensures RoomName(PyStr(Int(j))) == RoomName(MakeUser(k, username, name).id) <==> j == k
  {
    RoomNameInjective(j, k);
  }

  /** A socket whose only room is user k's, as `connect` joins it, receives
      the relay of a message to receiver j exactly when j is k. */
  lemma RelayReachesReceiverOnly(rooms: set<Membership>, s: nat, j: int, k: int, username: string, name: Option<string>)
    requires Membership(s, RoomName(MakeUser(k, username, name).id)) in rooms
    requires forall m :: m in rooms && m.socket == s ==> m.room == RoomName(MakeUser(k, username, name).id)
    ensures s in Recipients(rooms, ToRoom(RoomName(PyStr(Int(j))))) <==> j == k
  {
    ReceiverRoomIsUsersRoom(j, k, username, name);
    var target := RoomName(PyStr(Int(j)));
    if s in Recipients(rooms, ToRoom(target)) {
      var m :| m in rooms && m.room == target && m.socket == s;
    }
  }

  /** A `send_message` to a directory contact is stored with that contact's
      numeric id as receiver. */
  lemma SentToContactIsStoredForContact(users: seq<UserRow>, viewer: User, n: int, peer: UserJson, text: string)
    requires viewer.id == IntText(n) && peer in GetUsers(users, viewer)
    ensures IntegerAffinity(SendPayload(peer.id, text).receiverId) == peer.id
    ensures exists u :: u in users && u.id != n && peer.id == Int(u.id)
  {
    GetUsersExact(users, viewer, n);
  }

  /** With Alice (id 1) and Bob (id 2) signed up, Bob's directory lists Alice. */
  lemma ContactInDirectory(users: seq<UserRow>, bob: User)
    requires |users| == 2 && users[0].id == 1 && users[1].id == 2
    requires bob == MakeUser(2, users[1].username, users[1].name)
    ensures UserJsonOf(users[0]) in GetUsers(users, bob)
    ensures UserJsonOf(users[0]).id == Int(1)
  {
    GetUsersExact(users, bob, 2);
  }

  /** The two users the scenarios below sign up, in table order. */
  function ScenarioRows(): seq<UserRow> {
    [UserRow(1, "alice", "hash-a", Some("Alice A")), UserRow(2, "bob", "hash-b", Some("bob"))]
  }

  /** A fresh server where Alice and then Bob have signed up. */
  method SignUpAliceAndBob() returns (server: Server, alice: User, bob: User)
    ensures fresh(server) && server.Valid()
    ensures server.users == ScenarioRows() && server.messages == [] && server.emitted == []
    ensures server.lastMessageId == 0
    ensures alice == MakeUser(1, "alice", Some("Alice A")) && bob == MakeUser(2, "bob", Some("bob"))
  {
    server := new Server();
    var first := server.Signup("alice", "hash-a", Some("Alice A"));
    assert first.Ok?;
    alice := first.value;
    assert server.users == [ScenarioRows()[0]];
    assert !UsernameTaken(server.users, "bob") by {
      assert "alice"[0] != "bob"[0];
    }
    var second := server.Signup("bob", "hash-b", None);
    assert second.Ok?;
    bob := second.value;
  }

  /** Server side: with Alice (id 1) and Bob (id 2) signed up and Bob's
      socket 7 connected, Alice's page sends "hi" to Bob's directory id,
      the number 2. The row is stored with both ids as numbers, Bob's
      socket is in the room the relay goes to, and the relay carries
      Alice's id as text. */
  method ServerScenario(now: string) returns (stored: seq<MessageRow>, relay: seq<Emission>)
    ensures stored == [MessageRow(1, Int(1), Int(2), "hi", now)]
    ensures relay == [Emission(ToRoom(RoomName("2")), Receive(RelayPayload(MakeUser(1, "alice", Some("Alice A")), "hi", now))),
                      Emission(ToSocket(3), Sent(SentPayload("hi", Int(2), now)))]
    ensures RelayPayload(MakeUser(1, "alice", Some("Alice A")), "hi", now).senderId == Str("1")
  {
    assert IntText(1) == "1" && IntText(2) == "2" by {
      assert DigitChar(1) == '1' && DigitChar(2) == '2';
    }
    AffinityOfIntText(1);
    var server, alice, bob := SignUpAliceAndBob();
    var accepted := server.Connect(Some(bob), 7);
    assert Membership(7, RoomName("2")) in server.rooms;
    server.HandleMessage(Some(alice), 3, SendPayload(Int(2), "hi"), now);
    stored, relay := server.messages, server.emitted;
  }

  /** The discrepancy on one input: Bob's page has Alice (directory id 1)
      selected and her "hi" arrives with sender id "1"; the filter as
      written drops it, the intended one shows it. */
  lemma AsWrittenDropsAlicesMessage(now: string)
    ensures var contact := UserJsonOf(ScenarioRows()[0]);
            var payload := RelayPayload(MakeUser(1, "alice", Some("Alice A")), "hi", now);
            && contact.id == Int(1) && payload.senderId == Str("1")
            && !ShowsInbound(Some(contact), payload)
            && IntendedShowsInbound(Some(contact), payload)
  {
    assert IntText(1) == "1" by {
      assert DigitChar(1) == '1';
    }
  }

  /** Client side: Bob's page has Alice selected from the directory, with
      an empty history, when the relay of her "hi" arrives; the pane then
      holds exactly that message, not Bob's own, attributed to Alice. */
  method ClientScenario(now: string) returns (pane: seq<Bubble>)
    ensures |pane| == 1 && !pane[0].own && pane[0].author == "Alice A"
    ensures UnescapeText(pane[0].body) == "hi" && pane[0].timestamp == now
  {
    var rows := ScenarioRows();
    var bob := MakeUser(2, "bob", Some("bob"));
    var alice := MakeUser(1, "alice", Some("Alice A"));
    var contact := UserJsonOf(rows[0]);
    ContactInDirectory(rows, bob);
    IntendedFilterShowsExactlyPeer(contact, 1, 1, "alice", Some("Alice A"), "hi", now);

    var page := new Session();
    page.SelectUser(contact.id, contact.username, contact.name, Response.Ok([]));
    assert page.messages == [];
    page.ReceiveMessageIntended(RelayPayload(alice, "hi", now));
    pane := page.messages;
  }

  /** The same arrival with the handler as written: Bob's pane stays empty. */
  method ClientScenarioAsWritten(now: string) returns (pane: seq<Bubble>)
    ensures pane == []
  {
    var rows := ScenarioRows();
    var bob := MakeUser(2, "bob", Some("bob"));
    var alice := MakeUser(1, "alice", Some("Alice A"));
    var contact := UserJsonOf(rows[0]);
    ContactInDirectory(rows, bob);
    RelayedMessageIsNeverShown(rows, bob, 2, "", contact, alice, "hi", now);

    var page := new Session();
    page.SelectUser(contact.id, contact.username, contact.name, Response.Ok([]));
    assert page.messages == [];
    page.ReceiveMessage(RelayPayload(alice, "hi", now));
    pane := page.messages;
  }
}
