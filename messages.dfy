/** The fixed texts the server sends, one per `send_*` helper of Server.py. */
module Messages {

  /** send_welcome (Server.py:227-229). */
  const Welcome := "\nWelcome to the chat server!\n\nEnter a username for yourself: "

  /** send_menu (Server.py:232-234). */
  const Menu := "\n\n1. List users\n2. Chat\n3. Group Chat\n4. Exit\n\nEnter your choice: "

  /** username_validation's three replies (Server.py:291, 296, 303). */
  const EmptyNameError := "Error: Username cannot be empty. Please choose another: "
  const NameTakenError := "Error: Username already taken. Please choose another: "
  const LoginOk := "Login successful."

  /** send_single_user_warning (Server.py:239). */
  const SingleUserWarning := "\nYou are the only person in this server\n"

  /** send_general_error (Server.py:199). */
  const GeneralError := "\nInvalid input, try again\n"

  /** send_chat_request (Server.py:251). */
  const ChatRequestPrompt := "\nEnter the name of the person you would like to chat with: "

  /** send_group_chat_header (Server.py:167). */
  const GroupHeader := "\n\n**** Group Chat ****\n\n"

  /** send_chat_end_to_users (Server.py:211). */
  const ChatEnded := "chat session ended"

  /** remove_connection's disconnect token (Server.py:316). */
  const ForceExit := "FORCE_EXIT"

  /** The two availability labels set outside a private chat (Server.py:93, 179, 188, 302). */
  const Available := "Available"
  const InGroupChat := "In group chat"

  const Rule := "------------------------------------------------------------------------------------"

  /** send_user_list_header (Server.py:276-280). */
  const UserListHeader := "\n\n" + Rule + "\n" + "\tusername\tavailability\t\tlogin status\t\n" + Rule + "\n"

  /** send_group_chat_welcome (Server.py:172). */
  function GroupWelcome(name: string): string
  {
    "\n*** " + name + " has joined the chat ***\n"
  }

  /** send_request_waiting (Server.py:245). */
  function WaitingNotice(name: string): string
  {
    "\nWaiting for " + name + " to accept your invitation. Please wait.\n"
  }

  /** The invitation sent to the requested user (Server.py:107). */
  function RequestPrompt(name: string): string
  {
    "\nUser " + name + " is requesting to chat with you. Y/N?"
  }

  /** send_chat_header (Server.py:223). */
  function ChatHeader(name: string): string
  {
    "\n\n**** Private Chat with " + name + " ****\n\n"
  }

  /** send_rejection_message (Server.py:218). */
  function Rejection(name: string): string
  {
    "\n " + name + " has denied the chat."
  }

  /** A chat line as forwarded to a peer or to the group (Server.py:137, 143). */
  function ChatLine(name: string, text: string): string
  {
    name + ": " + text
  }

  /** Python's `str(b)` for a bool. */
  function BoolText(b: bool): string
  {
    if b then "True" else "False"
  }

  /** `c.lower()` for the ASCII capitals; every other character is kept.
      Only "Y" lowers to "y" and only "N" to "n", so this agrees with
      Python's `str.lower()` on whether the result is "y" or "n". */
  function LowerChar(c: char): char
  {
    if 'A' <= c <= 'Z' then (c as int + 32) as char else c
  }

  function Lower(s: string): string
  {
    seq(|s|, i requires 0 <= i < |s| => LowerChar(s[i]))
  }

  /** `msg.lower() == 'y'` (Server.py:112): exactly "y" and "Y". */
  function IsYes(msg: string): (yes: bool)
    ensures yes <==> Lower(msg) == "y"
  {
    assert Lower(msg) == "y" ==> |msg| == 1 && Lower(msg)[0] == LowerChar(msg[0]) == 'y' && msg == [msg[0]];
    msg == "y" || msg == "Y"
  }

  /** `msg.lower() == 'n'` (Server.py:118): exactly "n" and "N". */
  function IsNo(msg: string): (no: bool)
    ensures no <==> Lower(msg) == "n"
  {
    assert Lower(msg) == "n" ==> |msg| == 1 && Lower(msg)[0] == LowerChar(msg[0]) == 'n' && msg == [msg[0]];
    msg == "n" || msg == "N"
  }
}
