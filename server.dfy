/** The chat server's session state machine (Server.py:52-318): one object
    holding the two registry maps and an outbox recording every
    `connection.send`, with one method per branch of `message_router`. */
module ChatServer {
  import opened Words
  import opened Messages
  import opened Registry

  /** How handling one message leaves the connection's handler loop
      (Server.py:56-63): it goes on reading, the user exited through
      remove_connection, or an exception escaped message_router, which the
      handler swallows before closing the connection with the registry
      left as the exception found it. */
  datatype Outcome = Continue | Exited | Crashed

  /** The same text sent to each connection of `cs`, in order. */
  function Deliver(cs: seq<Conn>, text: string): seq<Send>
  {
    seq(|cs|, i requires 0 <= i < |cs| => Send(cs[i], text))
  }

  class Server {
    /** `database` (Server.py:8): connection -> User. */
    var db: map<Conn, User>
    /** `active_clients` (Server.py:7): username -> connection ... */
    var active: map<string, Conn>
    /** ... and its keys in insertion order, the order Python iterates them. */
    var order: seq<string>
    /** Every `send` made so far, oldest first. */
    var outbox: seq<Send>

    ghost predicate Valid()
      reads this
    {
      Consistent(db, active, order)
    }

    /** The registry at start-up: both maps empty (Server.py:7-8). */
    constructor ()
      ensures Valid()
      ensures db == map[] && active == map[] && order == [] && outbox == []
    {
      db, active, order, outbox := map[], map[], [], [];
    }

    /** A new connection: handle_client stores a fresh, logged-out record
        and sends the welcome (Server.py:54-55). */
    method Connect(conn: Conn)
      requires Valid() && conn !in db
      modifies this
      ensures Valid()
      ensures db == old(db)[conn := NewUser] && active == old(active) && order == old(order)
      ensures outbox == old(outbox) + [Send(conn, Welcome)]
    {
      db := db[conn := NewUser];
      outbox := outbox + [Send(conn, Welcome)];
    }

    /** send_user_list (Server.py:255-266): the header, then one row per
        bound name whose record still carries that name. */
    method SendUserList(conn: Conn)
      requires Valid()
      modifies this`outbox
      ensures Valid()
      ensures outbox == old(outbox) + [Send(conn, UserListHeader)] + ListingSends(conn, order, active, db)
    {
      outbox := outbox + [Send(conn, UserListHeader)];
      var i := 0;
      while i < |order|
        invariant 0 <= i <= |order|
        invariant outbox == old(outbox) + [Send(conn, UserListHeader)] + ListingSends(conn, order[..i], active, db)
      {
        var key := order[i];
        var value := active[key];
        assert order[..i + 1][..i] == order[..i];
        if value in db {
          var tempUser := db[value];
          if key == tempUser.username {
            outbox := outbox + [Send(conn, UserListLine(tempUser))];
          }
        }
        i := i + 1;
      }
      assert order[..|order|] == order;
    }

    /** broadcast_message_for_group_chat (Server.py:147-162): `message` to
        every registered group member in binding order, the sender too only
        when `allFlag` is set. */
    method BroadcastMessageForGroupChat(message: string, sender: Conn, allFlag: bool)
      requires Valid()
      modifies this`outbox
      ensures Valid()
      ensures outbox == old(outbox) + Deliver(GroupRecipients(order, active, db, sender, allFlag), message)
    {
      var i := 0;
      while i < |order|
        invariant 0 <= i <= |order|
        invariant outbox == old(outbox) + Deliver(GroupRecipients(order[..i], active, db, sender, allFlag), message)
      {
        var key := order[i];
        var value := active[key];
        assert order[..i + 1][..i] == order[..i];
        if value in db && (allFlag || value != sender) {
          if db[value].state == GroupChatting {
            outbox := outbox + [Send(value, message)];
          }
        }
        i := i + 1;
      }
      assert order[..|order|] == order;
    }

    /** username_validation (Server.py:288-305) for a logged-out session whose
        record already holds the candidate name (Server.py:71). */
    method UsernameValidation(conn: Conn)
      requires Valid() && conn in db && !db[conn].loginStatus
      modifies this
      ensures Valid()
      ensures old(outbox) <= outbox && db.Keys == old(db).Keys
      ensures db[conn].loginStatus <==> old(db[conn].username) != "" && old(db[conn].username) !in old(active)
      ensures var name := old(db[conn].username);
        && (name == "" ==>
              db == old(db) && active == old(active) && order == old(order) &&
              outbox == old(outbox) + [Send(conn, EmptyNameError)])
        && (name != "" && name in old(active) ==>
              db == old(db) && active == old(active) && order == old(order) &&
              outbox == old(outbox) + [Send(conn, NameTakenError)])
        && (name != "" && name !in old(active) ==>
              active == old(active)[name := conn] && order == old(order) + [name] &&
              db == old(db)[conn := old(db[conn]).(loginStatus := true, availability := Available)] &&
              outbox == old(outbox) + [Send(conn, LoginOk), Send(conn, Menu)])
    {
      var user := db[conn];
      if user.username == "" {
        outbox := outbox + [Send(conn, EmptyNameError)];
      } else if user.username in active {
        outbox := outbox + [Send(conn, NameTakenError)];
      } else {
        assert user.username !in order;
        active := active[user.username := conn];
        order := order + [user.username];
        db := db[conn := user.(loginStatus := true, availability := Available)];
        outbox := outbox + [Send(conn, LoginOk), Send(conn, Menu)];
      }
    }

    /** remove_connection as its authors meant it (Server.py:308-318): the
        leaving connection's record and its own binding go, and it is told
        to disconnect. The written loop unbinds another user's name; see
        Registry.RemoveConnectionAsWritten. */
    method RemoveConnection(conn: Conn)
      requires Valid() && conn in db && db[conn].loginStatus
      modifies this
      ensures Valid()
      ensures db == old(db) - {conn}
      ensures active == old(active) - {old(db[conn].username)}
      ensures order == Without(old(order), old(db[conn].username))
      ensures outbox == old(outbox) + [Send(conn, ForceExit)]
    {
      var name := db[conn].username;
      LogoutKeepsConsistent(db, active, order, conn);
      db := db - {conn};
      active := active - {name};
      order := Without(order, name);
      outbox := outbox + [Send(conn, ForceExit)];
    }

    /** exit_user_from_group_chat (Server.py:176-180). */
    method ExitUserFromGroupChat(conn: Conn)
      requires Valid() && conn in db && db[conn].loginStatus
      modifies this
      ensures Valid()
      ensures db == old(db)[conn := old(db[conn]).(state := Idle, availability := Available)]
      ensures active == old(active) && order == old(order)
      ensures outbox == old(outbox) + [Send(conn, Menu)]
    {
      db := db[conn := db[conn].(state := Idle, availability := Available)];
      outbox := outbox + [Send(conn, Menu)];
    }

    /** users_available (Server.py:183-189) with line 185 printing
        `other_user.username`: both records become Idle and "Available". */
    method UsersAvailable(user: Conn, other: Conn)
      requires Valid() && user in db && other in db && db[user].loginStatus && db[other].loginStatus
      modifies this
      ensures Valid()
      ensures active == old(active) && order == old(order) && outbox == old(outbox)
      ensures db.Keys == old(db).Keys
      ensures forall c :: c in db ==>
                db[c] == if c == user || c == other
                         then old(db[c]).(state := Idle, availability := Available)
                         else old(db[c])
    {
      RecordUpdateKeepsConsistent(db, active, order, user, db[user].(state := Idle, availability := Available));
      db := db[user := db[user].(state := Idle, availability := Available)];
      RecordUpdateKeepsConsistent(db, active, order, other, db[other].(state := Idle, availability := Available));
      db := db[other := db[other].(state := Idle, availability := Available)];
    }

    /** Menu choice "1" (Server.py:74-80): the user list when more than one
        name is bound, the single-user warning otherwise; then the menu. */
    method ListUsers(conn: Conn)
      requires Valid() && conn in db
      modifies this`outbox
      ensures Valid()
      ensures outbox == old(outbox) +
                (if |active| > 1
                 then [Send(conn, UserListHeader)] + ListingSends(conn, order, active, db)
                 else [Send(conn, SingleUserWarning)]) +
                [Send(conn, Menu)]
    {
      if |active| > 1 {
        ghost var rows := [Send(conn, UserListHeader)] + ListingSends(conn, order, active, db);
        SendUserList(conn);
        assert outbox == old(outbox) + rows;
        outbox := outbox + [Send(conn, Menu)];
      } else {
        outbox := outbox + [Send(conn, SingleUserWarning), Send(conn, Menu)];
      }
    }

    /** Menu choice "2" (Server.py:81-88): with more than one connection in
        `database` (logged in or not) the user moves to Requesting and is
        shown the list and the name prompt; otherwise the single-user
        warning and the menu, state unchanged. */
    method RequestChat(conn: Conn)
      requires Valid() && conn in db && db[conn].loginStatus
      modifies this
      ensures Valid()
      ensures active == old(active) && order == old(order)
      ensures |old(db)| > 1 ==>
                db == old(db)[conn := old(db[conn]).(state := Requesting)] &&
                outbox == old(outbox) + [Send(conn, UserListHeader)] +
                          ListingSends(conn, order, active, db) + [Send(conn, ChatRequestPrompt)]
      ensures |old(db)| <= 1 ==>
                db == old(db) && outbox == old(outbox) + [Send(conn, SingleUserWarning), Send(conn, Menu)]
    {
      if |db| > 1 {
        RecordUpdateKeepsConsistent(db, active, order, conn, db[conn].(state := Requesting));
        db := db[conn := db[conn].(state := Requesting)];
        SendUserList(conn);
        outbox := outbox + [Send(conn, ChatRequestPrompt)];
      } else {
        outbox := outbox + [Send(conn, SingleUserWarning), Send(conn, Menu)];
      }
    }

    /** Menu choice "3" (Server.py:89-93): the group header, then the join
        notice broadcast with `all_flag` set, and only then the move to
        GroupChatting, so the notice reaches the other group members and
        not the joiner. */
    method JoinGroupChat(conn: Conn)
      requires Valid() && conn in db && db[conn].loginStatus && db[conn].state != GroupChatting
      modifies this
      ensures Valid()
      ensures active == old(active) && order == old(order)
      ensures db == old(db)[conn := old(db[conn]).(state := GroupChatting, availability := InGroupChat)]
      ensures outbox == old(outbox) + [Send(conn, GroupHeader)] +
                        Deliver(GroupRecipients(order, active, old(db), conn, true),
                                GroupWelcome(old(db[conn].username)))
      ensures forall c :: c in GroupRecipients(order, active, old(db), conn, true) <==>
                            c in old(db) && c != conn && old(db[c]).state == GroupChatting
    {
      outbox := outbox + [Send(conn, GroupHeader)];
      forall c ensures c in GroupRecipients(order, active, db, conn, true) <==>
                         c in db && c != conn && db[c].state == GroupChatting {
        GroupRecipientsExact(db, active, order, conn, true, c);
      }
      BroadcastMessageForGroupChat(GroupWelcome(db[conn].username), conn, true);
      RecordUpdateKeepsConsistent(db, active, order, conn, db[conn].(state := GroupChatting, availability := InGroupChat));
      db := db[conn := db[conn].(state := GroupChatting, availability := InGroupChat)];
    }

    /** message_router, state Idle and logged in (Server.py:73-98): the four
        menu choices, matched as exact strings; "4" logs out, anything else
        draws the general error. */
    method RouteIdle(conn: Conn, msg: string) returns (out: Outcome)
      requires Valid() && conn in db && db[conn].state == Idle && db[conn].loginStatus
      modifies this
      ensures Valid()
      ensures out == if msg == "4" then Exited else Continue
      ensures old(outbox) <= outbox
      ensures msg != "4" ==> db.Keys == old(db).Keys
      ensures msg == "4" ==>
                db == old(db) - {conn} && active == old(active) - {old(db[conn].username)} &&
                order == Without(old(order), old(db[conn].username)) &&
                outbox == old(outbox) + [Send(conn, ForceExit)]
      ensures msg == "1" ==>
                db == old(db) && active == old(active) && order == old(order) &&
                outbox == old(outbox) +
                  (if |old(active)| > 1
                   then [Send(conn, UserListHeader)] + ListingSends(conn, order, active, db)
                   else [Send(conn, SingleUserWarning)]) +
                  [Send(conn, Menu)]
      ensures msg == "2" ==>
                active == old(active) && order == old(order) &&
                (|old(db)| > 1 ==>
                   db == old(db)[conn := old(db[conn]).(state := Requesting)] &&
                   outbox == old(outbox) + [Send(conn, UserListHeader)] +
                             ListingSends(conn, order, active, db) + [Send(conn, ChatRequestPrompt)]) &&
                (|old(db)| <= 1 ==>
                   db == old(db) && outbox == old(outbox) + [Send(conn, SingleUserWarning), Send(conn, Menu)])
      ensures msg == "3" ==>
                active == old(active) && order == old(order) &&
                db == old(db)[conn := old(db[conn]).(state := GroupChatting, availability := InGroupChat)] &&
                outbox == old(outbox) + [Send(conn, GroupHeader)] +
                          Deliver(GroupRecipients(order, active, old(db), conn, true),
                                  GroupWelcome(old(db[conn].username)))
      ensures msg != "1" && msg != "2" && msg != "3" && msg != "4" ==>
                db == old(db) && active == old(active) && order == old(order) &&
                outbox == old(outbox) + [Send(conn, GeneralError)]
    {
      out := Continue;
      if msg == "1" {
        ListUsers(conn);
      } else if msg == "2" {
        RequestChat(conn);
      } else if msg == "3" {
        JoinGroupChat(conn);
      } else if msg == "4" {
        RemoveConnection(conn);
        out := Exited;
      } else {
        outbox := outbox + [Send(conn, GeneralError)];
      }
    }

    /** message_router, state Requesting (Server.py:99-108): `msg` names the
        user to invite. An unbound name makes `requested_user` None and the
        attribute access at line 103 raises before anything changes. */
    method RouteRequesting(conn: Conn, msg: string) returns (out: Outcome)
      requires Valid() && conn in db && db[conn].state == Requesting
      modifies this
      ensures Valid()
      ensures active == old(active) && order == old(order) && db.Keys == old(db).Keys
      ensures old(outbox) <= outbox
      ensures out == (if msg in old(active) then Continue else Crashed)
      ensures msg !in old(active) ==> db == old(db) && outbox == old(outbox)
      ensures msg in old(active) ==>
                var t := old(active)[msg];
                var me := old(db[conn].username);
                && (forall c :: c in db ==>
                      db[c] == if c == t then old(db[c]).(availability := ChattingWith(me), state := Requested)
                               else if c == conn then old(db[c]).(availability := ChattingWith(msg))
                               else old(db[c]))
                && outbox == old(outbox) + [Send(conn, WaitingNotice(msg)), Send(t, RequestPrompt(me))]
    {
      var requested := GetUserFromName(active, db, msg);
      if requested.None? {
        return Crashed;
      }
      assert db[requested.value].username == msg;
      Invite(conn, requested.value);
      out := Continue;
    }

    /** The invitation once the named user `t` is found (Server.py:103-108):
        each party is labelled with the other's name, `t` becomes Requested,
        the inviter gets the waiting notice and `t` the Y/N prompt. */
    method Invite(conn: Conn, t: Conn)
      requires Valid() && conn in db && db[conn].loginStatus && t in db && db[t].loginStatus
      modifies this
      ensures Valid()
      ensures active == old(active) && order == old(order) && db.Keys == old(db).Keys
      ensures var me := old(db[conn].username);
              var them := old(db[t].username);
              && (forall c :: c in db ==>
                    db[c] == if c == t then old(db[c]).(availability := ChattingWith(me), state := Requested)
                             else if c == conn then old(db[c]).(availability := ChattingWith(them))
                             else old(db[c]))
              && outbox == old(outbox) + [Send(conn, WaitingNotice(them)), Send(t, RequestPrompt(me))]
    {
      var u := db[conn].(availability := ChattingWith(db[t].username));
      RecordUpdateKeepsConsistent(db, active, order, conn, u);
      db := db[conn := u];
      var v := db[t].(availability := ChattingWith(db[conn].username), state := Requested);
      RecordUpdateKeepsConsistent(db, active, order, t, v);
      db := db[t := v];
      outbox := outbox + [Send(conn, WaitingNotice(db[t].username))];
      outbox := outbox + [Send(t, RequestPrompt(db[conn].username))];
    }

    /** The answer to an invitation once the requester `p` is found
        (Server.py:115-124): `p` moves to Chatting on a yes and to Idle on a
        no; a yes sends each party the header naming the other, a no sends
        `p` the rejection and the menu, then the answerer the menu. */
    method AnswerInvitation(conn: Conn, p: Conn, yes: bool)
      requires Valid() && conn in db && p in db && db[p].loginStatus
      modifies this
      ensures Valid()
      ensures active == old(active) && order == old(order)
      ensures db == old(db)[p := old(db[p]).(state := if yes then Chatting else Idle)]
      ensures yes ==>
                outbox == old(outbox) + [Send(conn, ChatHeader(old(db[p].username))),
                                         Send(p, ChatHeader(old(db[conn].username)))]
      ensures !yes ==>
                outbox == old(outbox) + [Send(p, Rejection(old(db[conn].username))), Send(p, Menu), Send(conn, Menu)]
    {
      var next := if yes then Chatting else Idle;
      RecordUpdateKeepsConsistent(db, active, order, p, db[p].(state := next));
      db := db[p := db[p].(state := next)];
      if yes {
        outbox := outbox + [Send(conn, ChatHeader(db[p].username))];
        outbox := outbox + [Send(p, ChatHeader(db[conn].username))];
      } else {
        outbox := outbox + [Send(p, Rejection(db[conn].username)), Send(p, Menu), Send(conn, Menu)];
      }
    }

    /** message_router, state Requested (Server.py:109-127): the requester is
        the third word of this record's label; "y"/"Y" starts the chat,
        "n"/"N" declines it. A label of fewer than three words raises
        IndexError; an unbound requester raises once the reply is y or n,
        after this record's own state has been set. */
    method RouteRequested(conn: Conn, msg: string) returns (out: Outcome)
      requires Valid() && conn in db && db[conn].state == Requested
      modifies this
      ensures Valid()
      ensures active == old(active) && order == old(order) && db.Keys == old(db).Keys
      ensures old(outbox) <= outbox
      ensures out != Exited
      ensures var peer := PeerName(old(db[conn].availability));
        && (peer.None? ==> out == Crashed && db == old(db) && outbox == old(outbox))
        && (peer.Some? && !IsYes(msg) && !IsNo(msg) ==>
              out == Continue && db == old(db) && outbox == old(outbox) + [Send(conn, GeneralError)])
        && (peer.Some? && (IsYes(msg) || IsNo(msg)) && peer.value !in old(active) ==>
              out == Crashed && outbox == old(outbox) &&
              db == old(db)[conn := old(db[conn]).(state := if IsYes(msg) then Chatting else Idle)])
      ensures var peer := PeerName(old(db[conn].availability));
        peer.Some? && peer.value in old(active) && (IsYes(msg) || IsNo(msg)) ==>
          var p := old(active)[peer.value];
          var me := old(db[conn].username);
          var next := if IsYes(msg) then Chatting else Idle;
          && out == Continue
          && (forall c :: c in db ==>
                db[c] == if c == conn || c == p then old(db[c]).(state := next) else old(db[c]))
          && (IsYes(msg) ==>
                outbox == old(outbox) + [Send(conn, ChatHeader(peer.value)), Send(p, ChatHeader(me))])
          && (IsNo(msg) ==>
                outbox == old(outbox) + [Send(p, Rejection(me)), Send(p, Menu), Send(conn, Menu)])
    {
      var words := Split(db[conn].availability);
      if |words| < 3 {
        return Crashed;
      }
      var requester := GetUserFromName(active, db, words[2]);
      if IsYes(msg) || IsNo(msg) {
        var next := if IsYes(msg) then Chatting else Idle;
        RecordUpdateKeepsConsistent(db, active, order, conn, db[conn].(state := next));
        db := db[conn := db[conn].(state := next)];
        if requester.None? {
          return Crashed;
        }
        AnswerInvitation(conn, requester.value, IsYes(msg));
      } else {
        outbox := outbox + [Send(conn, GeneralError)];
      }
      out := Continue;
    }

    /** message_router, state Chatting (Server.py:128-138), with "Quit"
        handled as users_available evidently intends: the peer is the third
        word of the label; "Quit" frees both parties, any other text goes to
        the peer alone as "<username>: <text>". A label of fewer than three
        words, or an unbound peer, raises before anything changes. */
    method RouteChatting(conn: Conn, msg: string) returns (out: Outcome)
      requires Valid() && conn in db && db[conn].state == Chatting
      modifies this
      ensures Valid()
      ensures active == old(active) && order == old(order) && db.Keys == old(db).Keys
      ensures old(outbox) <= outbox
      ensures out != Exited
      ensures var peer := PeerName(old(db[conn].availability));
        peer.None? || peer.value !in old(active) ==>
          out == Crashed && db == old(db) && outbox == old(outbox)
      ensures var peer := PeerName(old(db[conn].availability));
        peer.Some? && peer.value in old(active) ==>
          var p := old(active)[peer.value];
          && out == Continue
          && (msg == "Quit" ==>
                && (forall c :: c in db ==>
                      db[c] == if c == conn || c == p
                               then old(db[c]).(state := Idle, availability := Available)
                               else old(db[c]))
                && outbox == old(outbox) + [Send(conn, ChatEnded), Send(p, ChatEnded), Send(p, Menu), Send(conn, Menu)])
          && (msg != "Quit" ==>
                db == old(db) && outbox == old(outbox) + [Send(p, ChatLine(old(db[conn].username), msg))])
    {
      var words := Split(db[conn].availability);
      if |words| < 3 {
        return Crashed;
      }
      var other := GetUserFromName(active, db, words[2]);
      if other.None? {
        return Crashed;
      }
      var p := other.value;
      if msg == "Quit" {
        UsersAvailable(conn, p);
        outbox := outbox + [Send(conn, ChatEnded), Send(p, ChatEnded)];
        outbox := outbox + [Send(p, Menu), Send(conn, Menu)];
      } else {
        outbox := outbox + [Send(p, ChatLine(db[conn].username, msg))];
      }
      out := Continue;
    }

    /** message_router, state Chatting, exactly as written: on "Quit",
        users_available evaluates `other_user + " has become available..."`
        (Server.py:185), adding a User object to a str; the TypeError escapes
        before any record changes or any text is sent. */
    method RouteChattingAsWritten(conn: Conn, msg: string) returns (out: Outcome)
      requires Valid() && conn in db && db[conn].state == Chatting
      modifies this
      ensures Valid()
      ensures active == old(active) && order == old(order) && db.Keys == old(db).Keys
      ensures old(outbox) <= outbox
      ensures msg == "Quit" ==> out == Crashed && db == old(db) && outbox == old(outbox)
      ensures var peer := PeerName(old(db[conn].availability));
        msg != "Quit" && (peer.None? || peer.value !in old(active)) ==>
          out == Crashed && db == old(db) && outbox == old(outbox)
      ensures var peer := PeerName(old(db[conn].availability));
        msg != "Quit" && peer.Some? && peer.value in old(active) ==>
          out == Continue && db == old(db) &&
          outbox == old(outbox) + [Send(old(active)[peer.value], ChatLine(old(db[conn].username), msg))]
    {
      if msg == "Quit" {
        out := Crashed;
      } else {
        out := RouteChatting(conn, msg);
      }
    }

    /** message_router, state GroupChatting (Server.py:139-144): "Quit"
        leaves the group; any other text goes to the other group members. */
    method RouteGroupChatting(conn: Conn, msg: string) returns (out: Outcome)
      requires Valid() && conn in db && db[conn].state == GroupChatting
      modifies this
      ensures Valid()
      ensures out == Continue && active == old(active) && order == old(order)
      ensures old(outbox) <= outbox && db.Keys == old(db).Keys
      ensures msg == "Quit" ==>
                db == old(db)[conn := old(db[conn]).(state := Idle, availability := Available)] &&
                outbox == old(outbox) + [Send(conn, Menu)]
      ensures msg != "Quit" ==>
                db == old(db) &&
                outbox == old(outbox) + Deliver(GroupRecipients(order, active, db, conn, false),
                                                ChatLine(db[conn].username, msg))
      ensures msg != "Quit" ==>
                forall c :: c in GroupRecipients(order, active, db, conn, false) <==>
                              c in db && c != conn && db[c].state == GroupChatting
    {
      if msg == "Quit" {
        ExitUserFromGroupChat(conn);
      } else {
        forall c ensures c in GroupRecipients(order, active, db, conn, false) <==>
                           c in db && c != conn && db[c].state == GroupChatting {
          GroupRecipientsExact(db, active, order, conn, false, c);
        }
        BroadcastMessageForGroupChat(ChatLine(db[conn].username, msg), conn, false);
      }
      out := Continue;
    }

    /** message_router, state Idle and logged out (Server.py:70-72): the
        message becomes the record's username, then is validated. A rejected
        name stays in the record although nothing is bound to it. */
    method RouteLogin(conn: Conn, msg: string)
      requires Valid() && conn in db && !db[conn].loginStatus
      modifies this
      ensures Valid()
      ensures old(outbox) <= outbox && db.Keys == old(db).Keys
      ensures db[conn].loginStatus <==> msg != "" && msg !in old(active)
      ensures msg == "" ==>
                db == old(db)[conn := old(db[conn]).(username := "")] &&
                active == old(active) && order == old(order) &&
                outbox == old(outbox) + [Send(conn, EmptyNameError)]
      ensures msg != "" && msg in old(active) ==>
                db == old(db)[conn := old(db[conn]).(username := msg)] &&
                active == old(active) && order == old(order) &&
                outbox == old(outbox) + [Send(conn, NameTakenError)]
      ensures msg != "" && msg !in old(active) ==>
                db == old(db)[conn := old(db[conn]).(username := msg, loginStatus := true, availability := Available)] &&
                active == old(active)[msg := conn] && order == old(order) + [msg] &&
                outbox == old(outbox) + [Send(conn, LoginOk), Send(conn, Menu)]
    {
      db := db[conn := db[conn].(username := msg)];
      UsernameValidation(conn);
    }

    /** message_router (Server.py:66-144): dispatch on the sender's state; a
        logged-out sender's message is its candidate username. */
    method MessageRouter(conn: Conn, msg: string) returns (out: Outcome)
      requires Valid() && conn in db
      modifies this
      ensures Valid()
      ensures old(outbox) <= outbox
      ensures out == Exited <==> old(db[conn]).state == Idle && old(db[conn]).loginStatus && msg == "4"
      ensures out == Exited ==> db == old(db) - {conn} && conn !in active.Values
      ensures out != Exited ==> db.Keys == old(db).Keys
      ensures !old(db[conn]).loginStatus ==>
                out == Continue && db == old(db)[conn := db[conn]] && db[conn].username == msg &&
                (db[conn].loginStatus <==> msg != "" && msg !in old(active))
    {
      var user := db[conn];
      match user.state
      case Idle =>
        if !user.loginStatus {
          RouteLogin(conn, msg);
          out := Continue;
        } else {
          out := RouteIdle(conn, msg);
        }
      case Requesting =>
        out := RouteRequesting(conn, msg);
      case Requested =>
        out := RouteRequested(conn, msg);
      case Chatting =>
        out := RouteChatting(conn, msg);
      case GroupChatting =>
        out := RouteGroupChatting(conn, msg);
    }
  }
}
