# Chat server session model

A Dafny model of the server side of a small multi-user chat application
(`Server.py`). Every client connection has a `User` record in the
`database` map, keyed by connection. A record that has logged in is bound
under its username in the `active_clients` map. `message_router` handles
each line a client sends. It looks at the sender's `UserState` (Idle,
Requesting, Requested, Chatting, GroupChatting), updates the records and
maps, and sends fixed texts back to one or more connections.

The model has four modules:

- `Words` covers Python's argument-less `str.split()` and how a chat peer is
  recovered from the label "chatting with <name>". `split()` splits on
  Python's `isspace` characters.
- `Messages` holds every text the server sends.
- `Registry` holds the record and registry data types and the invariant
  `Consistent` that holds between two messages. It also holds the pure
  lookups: name lookup, the user listing and group fan-out, each with its
  lemmas. Finally it holds `remove_connection` exactly as written.
- `ChatServer` is the `Server` class.
  - Fields: `db` is `database` and `active` is `active_clients`. `order`
    holds the keys of `active` in insertion order, which is the order Python
    iterates them. `outbox` records every `connection.send` in order.
  - There is one method per branch of `message_router` and per helper that
    changes state. `MessageRouter` dispatches to them.
  - Every method preserves `Valid()` (the `Consistent` invariant). Each
    branch method states the new records, bindings and outbox exactly.
    `MessageRouter` states the facts common to all branches plus the exact
    effect of a login. The "## Left out" lines name the remaining gaps.

A message handler can also raise an exception. `handle_client` swallows it
and closes the connection. The model returns this as the outcome `Crashed`
and leaves the registry exactly as the exception found it.

`Scenarios` drives concrete sessions through the methods, for example:

- a lone login;
- a refused duplicate name;
- alice inviting bob, bob accepting, and the two chatting and quitting;
- a group of three.

Each scenario states the exact texts sent.

Python objects are shared by reference: `user` and `requested_user` may be
the same object when someone invites themselves. The model follows this
with successive map updates, each of which re-reads `db`.
The `connection` field of `User` is the key the record is stored under, so
it is not a field of the model's `User`.

## Behaviour as the code has it

Behaviours of the code worth knowing:

- Declining an invitation ("n") sets both parties to Idle. Their "chatting
  with …" labels stay as they are; nothing clears the peer.
- Choice "3" broadcasts the join notice with `all_flag` set before the
  joiner's state becomes GroupChatting. The notice therefore reaches the
  other group members but not the joiner.
- Choice "2" tests `len(database) > 1`, which counts connections that have
  not logged in. Choice "1" tests `len(active_clients) > 1`.
- A rejected login leaves the candidate name in the record's `username`.
- While waiting for an answer, the requester stays in Requesting.
  Inviting a busy user, or oneself, is not refused.
- Naming an unbound user in Requesting raises before anything changes.
- Answering "y"/"n" when the requester is no longer bound sets the
  answerer's own state and then raises.
- The peer is the third word of the label. A name containing a blank is
  therefore looked up by its first word. A label with fewer than three
  words raises IndexError.
- `msg.lower() == 'y'` holds only for "y" and "Y", and likewise for "n".
  Menu choices and "Quit" are exact matches.

## Model

| member | source | states |
|---|---|---|
| Words.TakeWord | Server.py:110 | the first word is the longest blank-free prefix of the text: no blank inside, and a blank or the end right after it |
| Words.Split | Server.py:110 | every word `split()` returns is non-empty and blank-free, and the words joined together are exactly the non-blank characters of the text, in order |
| Words.SplitOneWord | Server.py:110 | a blank-free non-empty string splits into itself alone |
| Words.SplitBlanksThen | Server.py:110 | leading blanks contribute no word: the text after them splits the same |
| Words.SplitWordThenBlank | Server.py:110 | a word followed by a blank splits off as the first word, ahead of the words of the rest |
| Words.LabelWords | Server.py:103-104 | the words of the label `ChattingWith(name)`, "chatting with " + name, are "chatting", "with" and the words of the name |
| Words.PeerName | Server.py:110-111 | the peer read off a label, when there is a third word, is one non-empty blank-free word |
| Words.PeerNameOfLabel | Server.py:110-111 | the third word of a chat label is the first word of the name it was built from; there is none (IndexError) when the name is all blanks |
| Words.PeerNameRoundTrip | Server.py:103-111 | for a blank-free non-empty username, reading the peer off the label built at lines 103-104 gives back that username |
| Words.PeerNameTruncatesBlankName | Server.py:129-130 | a username with a blank, "bob smith", comes back from the label as "bob" only |
| Words.PeerNameOfBlankName | Server.py:110 | a username made of one blank leaves the label with two words, so indexing word 3 raises |
| Messages.IsYes | Server.py:112 | an answer accepts exactly when its lower-cased form is "y" |
| Messages.IsNo | Server.py:118 | an answer declines exactly when its lower-cased form is "n" |
| Registry.RecordUpdateKeepsConsistent | Server.py:83 | setting the state or label of a logged-in record keeps every binding valid |
| Registry.LogoutKeepsConsistent | Server.py:308-314 | dropping a logged-in record together with its own binding leaves a consistent registry |
| Registry.UniqueUsernames | Server.py:294-300 | no two logged-in records share a username |
| Registry.LookupFindsSession | Server.py:269-273 | on a consistent registry, the lookup of a name yields a connection exactly when that connection's record is logged in under that name |
| Registry.Without | Server.py:314 | deleting a key keeps all the other keys, drops that one, and keeps them duplicate-free. An absent key leaves the order unchanged; a present key of a duplicate-free order is cut out at its position, the others keeping their order |
| Registry.ListingSends | Server.py:258-265 | the walk over keys sends at most one row per key, every one to the requesting connection |
| Registry.ListingRows | Server.py:258-265 | over bound keys, the listing has one row per key, in key order, each showing that key's record |
| Registry.ListingInOrder | Server.py:255-266 | the listing of the whole registry has one row per bound name, as many rows as `active_clients` has entries, in binding order, and every logged-in user appears |
| Registry.GroupRecipients | Server.py:152-162 | the walk over keys yields at most one connection per key, each a registered connection in GroupChatting, and never the sender unless `all_flag` is set |
| Registry.GroupRecipientsOf | Server.py:152-162 | a walk over keys reaches exactly the registered GroupChatting connections bound under one of the keys, without the sender unless `all_flag` is set |
| Registry.GroupRecipientsExact | Server.py:147-162 | a group broadcast reaches exactly the connections in GroupChatting, with the sender only when `all_flag` is set; no session outside the group receives it |
| Registry.GroupRecipientsOnce | Server.py:153-162 | a broadcast reaches each connection at most once |
| Registry.FirstLive | Server.py:309-311 | the position of the first key in iteration order whose connection is still in `database`, or none if there is no such key |
| Registry.RemoveAsWrittenUnbindsFirst | Server.py:308-318 | as written, the entry removed from `active_clients` is the first one bound, so the leaving user's own binding goes only when that user was bound first |
| Registry.RemoveAsWrittenCounterexample | Server.py:308-318 | with alice bound before bob, bob's exit as written drops bob's record but unbinds "alice"; the result is inconsistent |
| ChatServer.Server.constructor | Server.py:7-8 | the registry starts with both maps empty and nothing sent |
| ChatServer.Server.Connect | Server.py:54-55 | a new connection gets the record ("this", "available", logged out, Idle) and the welcome text; nothing else changes |
| ChatServer.Server.SendUserList | Server.py:255-266 | sends the header and then exactly the rows of the listing, in binding order |
| ChatServer.Server.BroadcastMessageForGroupChat | Server.py:147-162 | sends the message once to each group recipient, in binding order, and to no one else |
| ChatServer.Server.UsernameValidation | Server.py:288-305 | an empty name gets only the "cannot be empty" error; a bound name gets only "already taken"; neither changes any binding or record. Otherwise the name is bound to this connection, the record is logged in with label "Available", and "Login successful." and the menu are sent |
| ChatServer.Server.RouteLogin | Server.py:69-72 | a logged-out sender's message becomes its username and is validated. The session is logged in afterwards exactly when the name is non-empty and unbound. The three outcomes are stated in full |
| ChatServer.Server.RemoveConnection | Server.py:308-318 | logout as intended: the leaving record and its own binding are removed, and only FORCE_EXIT is sent to it |
| ChatServer.Server.ExitUserFromGroupChat | Server.py:176-180 | the user returns to Idle with label "Available" and gets the menu |
| ChatServer.Server.UsersAvailable | Server.py:183-189 | corrected version, with line 185 printing `other_user.username`: both parties become Idle and "Available"; every other record is untouched and nothing is sent |
| ChatServer.Server.ListUsers | Server.py:74-80 | choice "1": with more than one bound name, the listing and the menu; otherwise the single-user warning and the menu |
| ChatServer.Server.RequestChat | Server.py:81-88 | choice "2": with more than one entry in `database`, the state becomes Requesting and the listing and name prompt are sent. Otherwise the state is unchanged and the warning and the menu are sent |
| ChatServer.Server.JoinGroupChat | Server.py:89-93 | choice "3": the group header, then the join notice to exactly the other group members, then the state becomes GroupChatting with label "In group chat" |
| ChatServer.Server.RouteIdle | Server.py:73-98 | the menu of a logged-in Idle user: "1" sends the listing or the single-user warning, then the menu; "2" starts a request or warns; "3" joins the group with the notice to the other members; "4" logs out through the corrected `remove_connection` (`RemoveConnection`), dropping the leaver's own record and binding; any other text gets only the general error with nothing changed |
| ChatServer.Server.RouteRequesting | Server.py:99-108 | naming a bound user labels each party with the other's name and makes the target Requested; the requester gets the waiting notice and the target the Y/N prompt. An unbound name raises and nothing changes |
| ChatServer.Server.Invite | Server.py:103-108 | the inviter is labelled with the target's name and the target with the inviter's; the target becomes Requested; exactly the waiting notice to the inviter and the Y/N prompt to the target are sent; no other record or binding changes |
| ChatServer.Server.AnswerInvitation | Server.py:115-124 | "y" makes the requester Chatting and sends the two chat headers, each naming the other party; "n" makes the requester Idle and sends the rejection and the menu to the requester and the menu to the answerer; no other record or binding changes |
| ChatServer.Server.RouteRequested | Server.py:109-127 | "y"/"Y" makes both parties Chatting and sends each the header naming the other. "n"/"N" makes both Idle and sends the rejection and a menu to the requester and a menu to the answerer. Any other reply sends only the general error. A short label, or an unbound requester on y/n, raises at the point the code does |
| ChatServer.Server.RouteChatting | Server.py:128-138 | "Quit" (corrected) makes both parties Idle and "Available", and each gets "chat session ended" and the menu. Any other text goes to the peer alone as "username: text". An unreadable or unbound peer raises with nothing changed |
| ChatServer.Server.RouteChattingAsWritten | Server.py:128-138 | as written, "Quit" raises inside users_available before anything changes or is sent. Any other text goes to the peer alone as "username: text", and an unreadable or unbound peer raises with nothing changed |
| ChatServer.Server.RouteGroupChatting | Server.py:139-144 | "Quit" leaves the group and sends the menu. Any other text goes as "username: text" to every other group member and to no one else |
| ChatServer.Server.MessageRouter | Server.py:66-144 | dispatching to the corrected `remove_connection` (`RemoveConnection`) on "4" and the corrected `users_available` (`RouteChatting`) on "Quit": every message keeps the registry consistent and only appends to the outbox. The handler ends (Exited) exactly on "4" from a logged-in Idle user, whose record then leaves `database` and whose connection is no longer bound; otherwise no connection is added or dropped. A logged-out sender's message becomes its username, no other record changes, and the sender is logged in exactly when the name is non-empty and unbound |
| Scenarios.LoneUserCannotRequestChat | Server.py:81-88 | a lone logged-in user choosing "2" gets the warning and the menu and stays Idle |
| Scenarios.RouterLogsInFirstClaimOnly | Server.py:66-72 | through `message_router`, two clients both claiming "alice": the first is logged in and bound, the second is not |
| Scenarios.TakenNameRefused | Server.py:294-297 | a second login as "alice" is refused; alice's binding and record are untouched and the newcomer stays logged out |
| Scenarios.AliceAndBobLoggedIn | Server.py:288-305 | two logins bind "alice" and "bob", in that order, to their connections |
| Scenarios.AliceInvitesBob | Server.py:99-108 | alice's invitation labels both, makes bob Requested, and sends exactly the waiting notice and the prompt |
| Scenarios.BobAccepts | Server.py:109-117 | bob's "y" makes both Chatting and sends each the header naming the other |
| Scenarios.PairAliceAndBob | Server.py:66-117 | login, invitation and acceptance together, with the exact traffic of the invitation and the acceptance |
| Scenarios.ChatLineReachesPeerOnly | Server.py:136-138 | "hello" from alice reaches bob alone, as "alice: hello" |
| Scenarios.QuitAsWrittenStrandsPeer | Server.py:183-185 | as written, alice's "Quit" raises, nothing is sent, and bob is left Chatting |
| Scenarios.QuitEndsChatForBoth | Server.py:131-135 | as intended, "Quit" frees both users and sends the end notice and the menu to each |
| Scenarios.TwoOfThreeLoggedIn | Server.py:54 | three connections, two of them logged in; the third still has the fresh record |
| Scenarios.ThreeLoggedIn | Server.py:288-305 | three logins bind "a", "b" and "c" in order |
| Scenarios.AllJoinGroup | Server.py:89-93 | after each chooses "3", all three are GroupChatting with label "In group chat" |
| Scenarios.TrioRecipients | Server.py:152-156 | with a, b and c bound in order to connections 1-3 and all in the group, a broadcast from 1 reaches 2 and then 3 |
| Scenarios.GroupMessageSkipsSender | Server.py:139-162 | in a group of three, "hi" from the first is sent exactly as "a: hi" to the second and then the third, and not back to the sender |

## Left out

- Client.py is not part of this model. It only reads the terminal, sends lines and prints replies.
- Sockets and threads are not modelled: `main`, `accept`, the `recv(1024)` loop of `handle_client` and `connection.close()`. Each received line is an argument of `MessageRouter`.
- Concurrent access to the two shared dicts from several client threads is not modelled; the model handles one message at a time.
- Byte encoding and decoding are not modelled. Messages are strings, and a line that is not valid UTF-8 is not considered.
- The `print` logging is left out, along with `username_from_connection`, which only feeds it and the join notice. The model reads the username directly.
- A `send` to a closed or broken socket, and the exception it raises, is not modelled: every send succeeds.
- `format_incoming_msg` (Server.py:203-206) is never called.
- The `address` field of `User` is only printed.
- A client that disconnects makes `recv` return an empty line. That line is routed like any other; the model does not single it out.
- After a `Crashed` outcome the record stays in `database` and its name stays bound. The closed connection is not modelled further.
- ChatServer.Server.RouteChatting: models "Quit" with users_available printing `other_user.username`, which is the evident intent. The code as written always raises there; see `RouteChattingAsWritten`.
- ChatServer.Server.RemoveConnection: models the evident intent of remove_connection. The loop as written is `Registry.RemoveConnectionAsWritten`, and its RuntimeError on the next iteration is folded into the handler ending.
- ChatServer.Server.RouteIdle, ChatServer.Server.MessageRouter: built on the corrected `RemoveConnection` and, in the router's Chatting case, the corrected `RouteChatting`. They do not model the handler as written: with the Server.py:308-314 loop an exit can unbind another user's name and break `Consistent` (see `RemoveAsWrittenCounterexample`), and with line 185 as written "Quit" in a private chat always raises (see `RouteChattingAsWritten`).
- ChatServer.Server.MessageRouter: states the properties common to all branches and the exact effect of a login. The exact effect in every other state is stated by the `Route*` method for that state.
- Messages.IsYes, Messages.IsNo: `Lower` lowers only the ASCII capitals. No other character lowers to "y" or "n" under Python's `str.lower()`, so the two tests agree with the code; `Lower` is not a full model of `str.lower()`.
- Registry.ListingSends, Registry.GroupRecipients: these walks state bounds and membership. Which rows and recipients they yield exactly is stated by `ListingRows` and `GroupRecipientsOf`.
- Registry.GetUserFromName, Registry.UserListLine, Registry.RemoveConnectionAsWritten, Words.ChattingWith: lookup, string and loop definitions with no contract of their own; their lemmas are `LookupFindsSession`, `ListingRows`, `RemoveAsWrittenUnbindsFirst` and `LabelWords`.

## Findings

| source | as written | input that shows it | evidently intended | confidence | as-written member | corrected member |
|---|---|---|---|---|---|---|
| Server.py:185 | `print(other_user + " has become available to chat with")` adds a `User` object to a `str`. This raises TypeError before either record changes | alice and bob in a private chat; alice sends "Quit". The handler raises, alice's connection is closed, no one is told, and bob stays Chatting | print `other_user.username`, as line 184 does for `user`, then free both users | not executed; high | ChatServer.Server.RouteChattingAsWritten, Scenarios.QuitAsWrittenStrandsPeer | ChatServer.Server.RouteChatting, ChatServer.Server.UsersAvailable, ChatServer.Server.MessageRouter, Scenarios.QuitEndsChatForBoth |
| Server.py:308-314 | remove_connection deletes `database[connection]` but `active_clients[temp_user.username]`, where `temp_user` is the record of the first live entry of `active_clients`, not the leaving user | alice (connection 1) bound before bob (connection 2); bob chooses "4". bob's record is deleted but "alice" is unbound, so "bob" stays bound to a deleted connection and alice is logged in with no binding | delete the leaving user's own binding | not executed; high | Registry.RemoveConnectionAsWritten, Registry.RemoveAsWrittenUnbindsFirst, Registry.RemoveAsWrittenCounterexample | ChatServer.Server.RemoveConnection, ChatServer.Server.RouteIdle, ChatServer.Server.MessageRouter, Registry.LogoutKeepsConsistent |
