/** Concrete sessions driven through the server's branch methods: a lone
    login, a private chat between alice (connection 1) and bob
    (connection 2), and a group chat of three. */
module Scenarios {
  import opened Words
  import opened Messages
  import opened Registry
  import opened ChatServer

  /** alice logs in alone and picks "2": she gets the single-user warning
      and the menu, not the user list, and stays Idle. */
  method LoneUserCannotRequestChat() returns (sent: seq<Send>, state: UserState)
    ensures sent == [Send(1, Welcome), Send(1, LoginOk), Send(1, Menu),
                     Send(1, SingleUserWarning), Send(1, Menu)]
    ensures state == Idle
  {
    var s := new Server();
    s.Connect(1);
    s.RouteLogin(1, "alice");
    s.RequestChat(1);
    sent, state := s.outbox, s.db[1].state;
  }

  /** A second login under a taken name is refused and leaves the holder's
      binding and record as they were. */
  method TakenNameRefused() returns (sent: seq<Send>, holder: Conn, holderRecord: User, loggedIn: bool)
    ensures sent == [Send(2, NameTakenError)]
    ensures holder == 1 && holderRecord == User("alice", Available, true, Idle)
    ensures !loggedIn
  {
    var s := new Server();
    s.Connect(1);
    s.Connect(2);
    s.RouteLogin(1, "alice");
    var mark := |s.outbox|;
    s.RouteLogin(2, "alice");
    sent := s.outbox[mark..];
    holder, holderRecord, loggedIn := s.active["alice"], s.db[1], s.db[2].loginStatus;
  }

  /** Through the router: two clients both answer the welcome with
      "alice"; the first is logged in under it and the second is not. */
  method RouterLogsInFirstClaimOnly() returns (first: bool, second: bool, holder: Conn)
    ensures first
    ensures !second
    ensures holder == 1
  {
    var s := new Server();
    s.Connect(1);
    s.Connect(2);
    var out := s.MessageRouter(1, "alice");
    first := s.db[1].loginStatus;
    assert s.db[1].username == "alice" && "alice" in s.active;
    holder := s.active["alice"];
    out := s.MessageRouter(2, "alice");
    second := s.db[2].loginStatus;
  }

  /** The registry holds exactly alice on connection 1 and bob on
      connection 2, bound in that order, with the records given. */
  ghost predicate AliceAndBob(s: Server, alice: User, bob: User)
    reads s
  {
    && s.Valid()
    && s.active == map["alice" := 1, "bob" := 2] && s.order == ["alice", "bob"]
    && s.db.Keys == {1, 2} && s.db[1] == alice && s.db[2] == bob
  }

  /** alice (connection 1) and bob (connection 2) connect and log in. */
  method AliceAndBobLoggedIn() returns (s: Server)
    ensures fresh(s)
    ensures AliceAndBob(s, User("alice", Available, true, Idle), User("bob", Available, true, Idle))
  {
    s := new Server();
    s.Connect(1);
    s.Connect(2);
    s.RouteLogin(1, "alice");
    assert s.db[2] == NewUser;
    s.RouteLogin(2, "bob");
  }

  /** From both logged in and Idle, alice picks "2" and names bob. `k`
      marks where the invitation's own traffic starts in the outbox. */
  method AliceInvitesBob(s: Server) returns (k: nat)
    requires AliceAndBob(s, User("alice", Available, true, Idle), User("bob", Available, true, Idle))
    modifies s
    ensures AliceAndBob(s, User("alice", ChattingWith("bob"), true, Requesting),
                           User("bob", ChattingWith("alice"), true, Requested))
    ensures k <= |s.outbox|
    ensures s.outbox[k..] == [Send(1, WaitingNotice("bob")), Send(2, RequestPrompt("alice"))]
  {
    s.RequestChat(1);
    k := |s.outbox|;
    var out := s.RouteRequesting(1, "bob");
  }

  /** bob, invited by alice, answers "y": both move to Chatting and each
      gets the header naming the other. */
  method BobAccepts(s: Server)
    requires AliceAndBob(s, User("alice", ChattingWith("bob"), true, Requesting),
                            User("bob", ChattingWith("alice"), true, Requested))
    modifies s
    ensures AliceAndBob(s, User("alice", ChattingWith("bob"), true, Chatting),
                           User("bob", ChattingWith("alice"), true, Chatting))
    ensures s.outbox == old(s.outbox) + [Send(2, ChatHeader("alice")), Send(1, ChatHeader("bob"))]
  {
    assert NoSpace("alice");
    PeerNameRoundTrip("alice");
    var out := s.RouteRequested(2, "y");
  }

  /** alice and bob log in, alice invites bob, bob accepts. `k` marks where
      the invitation's traffic starts in the outbox. */
  method PairAliceAndBob() returns (s: Server, k: nat)
    ensures fresh(s)
    ensures AliceAndBob(s, User("alice", ChattingWith("bob"), true, Chatting),
                           User("bob", ChattingWith("alice"), true, Chatting))
    ensures k <= |s.outbox|
    ensures s.outbox[k..] == [Send(1, WaitingNotice("bob")), Send(2, RequestPrompt("alice")),
                              Send(2, ChatHeader("alice")), Send(1, ChatHeader("bob"))]
  {
    s := AliceAndBobLoggedIn();
    k := AliceInvitesBob(s);
    ghost var before := s.outbox;
    BobAccepts(s);
    assert s.outbox[k..] == before[k..] + [Send(2, ChatHeader("alice")), Send(1, ChatHeader("bob"))];
  }

  /** In a private chat, "hello" from alice reaches bob, and only bob, as
      "alice: hello". */
  method ChatLineReachesPeerOnly() returns (sent: seq<Send>, out: Outcome)
    ensures sent == [Send(2, ChatLine("alice", "hello"))]
    ensures out == Continue
  {
    var s, k := PairAliceAndBob();
    var mark := |s.outbox|;
    assert NoSpace("bob");
    PeerNameRoundTrip("bob");
    out := s.RouteChatting(1, "hello");
    sent := s.outbox[mark..];
  }

  /** As written, alice's "Quit" raises at Server.py:185: her handler ends,
      nothing is sent, and bob is left Chatting with her. */
  method QuitAsWrittenStrandsPeer() returns (sent: seq<Send>, out: Outcome, bobState: UserState)
    ensures sent == [] && out == Crashed && bobState == Chatting
  {
    var s, k := PairAliceAndBob();
    var mark := |s.outbox|;
    out := s.RouteChattingAsWritten(1, "Quit");
    sent, bobState := s.outbox[mark..], s.db[2].state;
  }

  /** As intended, alice's "Quit" frees both: both are Idle and Available,
      both are told the chat ended, and both get the menu. */
  method QuitEndsChatForBoth() returns (sent: seq<Send>, alice: User, bob: User)
    ensures sent == [Send(1, ChatEnded), Send(2, ChatEnded), Send(2, Menu), Send(1, Menu)]
    ensures alice == User("alice", Available, true, Idle)
    ensures bob == User("bob", Available, true, Idle)
  {
    var s, k := PairAliceAndBob();
    var mark := |s.outbox|;
    assert NoSpace("bob");
    PeerNameRoundTrip("bob");
    var out := s.RouteChatting(1, "Quit");
    sent, alice, bob := s.outbox[mark..], s.db[1], s.db[2];
  }

  /** The registry holds exactly a, b and c on connections 1, 2 and 3,
      all logged in and in the state given. */
  ghost predicate Trio(s: Server, st: UserState, tag: string)
    reads s
  {
    && s.Valid()
    && s.active == map["a" := 1, "b" := 2, "c" := 3] && s.order == ["a", "b", "c"]
    && s.db.Keys == {1, 2, 3}
    && s.db[1] == User("a", tag, true, st)
    && s.db[2] == User("b", tag, true, st)
    && s.db[3] == User("c", tag, true, st)
  }

  /** a, b and c connect; a and b log in, c has not sent a name yet. */
  method TwoOfThreeLoggedIn() returns (s: Server)
    ensures fresh(s) && s.Valid()
    ensures s.active == map["a" := 1, "b" := 2] && s.order == ["a", "b"]
    ensures s.db.Keys == {1, 2, 3} && s.db[3] == NewUser
    ensures s.db[1] == User("a", Available, true, Idle) && s.db[2] == User("b", Available, true, Idle)
  {
    s := new Server();
    s.Connect(1);
    s.Connect(2);
    s.Connect(3);
    s.RouteLogin(1, "a");
    assert s.db[2] == NewUser && s.db[3] == NewUser;
    s.RouteLogin(2, "b");
  }

  /** a, b and c connect and log in. */
  method ThreeLoggedIn() returns (s: Server)
    ensures fresh(s) && Trio(s, Idle, Available)
  {
    s := TwoOfThreeLoggedIn();
    s.RouteLogin(3, "c");
  }

  /** a, b and c each pick "3" in turn. */
  method AllJoinGroup(s: Server)
    requires Trio(s, Idle, Available)
    modifies s
    ensures Trio(s, GroupChatting, InGroupChat)
  {
    s.JoinGroupChat(1);
    s.JoinGroupChat(2);
    s.JoinGroupChat(3);
  }

  /** With a, b and c all in the group, a walk over the three keys from
      sender 1 reaches 2 and then 3. */
  lemma TrioRecipients(db: map<Conn, User>, active: map<string, Conn>)
    requires active == map["a" := 1, "b" := 2, "c" := 3] && db.Keys == {1, 2, 3}
    requires db[1].state == GroupChatting && db[2].state == GroupChatting && db[3].state == GroupChatting
    ensures GroupRecipients(["a", "b", "c"], active, db, 1, false) == [2, 3]
  {
    assert ["a"][..0] == [];
    assert GroupRecipients(["a"], active, db, 1, false) == [];
    assert ["a", "b"][..1] == ["a"];
    assert GroupRecipients(["a", "b"], active, db, 1, false) == [2];
    assert ["a", "b", "c"][..2] == ["a", "b"];
  }

  /** Three users join the group chat; a message from the first reaches the
      other two, once each and in binding order, and is not echoed to the
      sender. */
  method GroupMessageSkipsSender() returns (sent: seq<Send>)
    ensures sent == [Send(2, ChatLine("a", "hi")), Send(3, ChatLine("a", "hi"))]
  {
    var s := ThreeLoggedIn();
    AllJoinGroup(s);
    TrioRecipients(s.db, s.active);
    var mark := |s.outbox|;
    var out := s.RouteGroupChatting(1, "hi");
    sent := s.outbox[mark..];
  }
}
