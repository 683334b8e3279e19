/**
 * The chat page's client state: the open chat, its messages and the chat list
 * with unread counters and previews, changed by socket events, by sending a
 * message (a temporary `sending` message replaced by the server's copy, or by
 * a local copy when the request fails) and by opening a chat; and the socket
 * connection with its bounded reconnect counter and its status text. Awaited
 * calls are parameters holding their outcome.
 */
module ChatClient {
  import opened Common
  import opened Text

  datatype Message = Message(id: string, text: string, sender: string, status: string)

  /** An entry of the chat list; a missing unread counter reads as 0. */
  datatype ChatEntry = ChatEntry(id: int, userId: int, unread: nat, lastMessage: string, online: bool)

  /** The socket messages the page reacts to; anything else is only logged. */
  datatype Event =
    | NewMessage(chatId: int, data: Message)
    | TypingStart(typingChat: int)
    | TypingStop(stoppedChat: int)
    | UserOnline(onlineUser: int)
    | UserOffline(offlineUser: int)
    | StatusUpdate(messageId: string, newStatus: string)
    | UnknownEvent

  function ChatIndex(chats: seq<ChatEntry>, id: int): (i: Option<nat>)
    ensures i.Some? ==> i.value < |chats| && chats[i.value].id == id && forall j :: 0 <= j < i.value ==> chats[j].id != id
    ensures i.None? ==> forall j :: 0 <= j < |chats| ==> chats[j].id != id
  {
    FirstIndex(chats, (c: ChatEntry) => c.id == id)
  }

  function UserChatIndex(chats: seq<ChatEntry>, userId: int): (i: Option<nat>)
    ensures i.Some? ==> i.value < |chats| && chats[i.value].userId == userId && forall j :: 0 <= j < i.value ==> chats[j].userId != userId
    ensures i.None? ==> forall j :: 0 <= j < |chats| ==> chats[j].userId != userId
  {
    FirstIndex(chats, (c: ChatEntry) => c.userId == userId)
  }

  function MessageIndex(msgs: seq<Message>, id: string): (i: Option<nat>)
    ensures i.Some? ==> i.value < |msgs| && msgs[i.value].id == id && forall j :: 0 <= j < i.value ==> msgs[j].id != id
    ensures i.None? ==> forall j :: 0 <= j < |msgs| ==> msgs[j].id != id
  {
    FirstIndex(msgs, (m: Message) => m.id == id)
  }

  // ----- the reference changes of the lists -----

  /** The chat list after a message for a chat that is not open: that chat gets the preview and one more unread. */
  function Bumped(chats: seq<ChatEntry>, chatId: int, text: string): (r: seq<ChatEntry>)
    ensures |r| == |chats|
  {
    match ChatIndex(chats, chatId)
    case None => chats
    case Some(k) => chats[k := chats[k].(unread := chats[k].unread + 1, lastMessage := text)]
  }

  function TotalUnread(chats: seq<ChatEntry>): nat {
    if chats == [] then 0 else chats[0].unread + TotalUnread(chats[1..])
  }

  /** Changing one entry changes the total by the difference of its counters. */
  lemma {:induction false} TotalUnreadUpdate(chats: seq<ChatEntry>, k: nat, c: ChatEntry)
    requires k < |chats|
    ensures TotalUnread(chats[k := c]) + chats[k].unread == TotalUnread(chats) + c.unread
  {
    if k > 0 {
      assert chats[k := c][1..] == chats[1..][k - 1 := c];
      TotalUnreadUpdate(chats[1..], k - 1, c);
    }
  }

  /** A message for a closed chat adds exactly one unread message in all, and none when the chat is not listed. */
  lemma BumpAddsOne(chats: seq<ChatEntry>, chatId: int, text: string)
    ensures ChatIndex(chats, chatId).Some? ==> TotalUnread(Bumped(chats, chatId, text)) == TotalUnread(chats) + 1
    ensures ChatIndex(chats, chatId).None? ==> Bumped(chats, chatId, text) == chats
  {
    match ChatIndex(chats, chatId)
    case None =>
    case Some(k) =>
      TotalUnreadUpdate(chats, k, chats[k].(unread := chats[k].unread + 1, lastMessage := text));
  }

  /** Only the first chat with the id changes: every other entry stays as it was. */
  lemma BumpTouchesOne(chats: seq<ChatEntry>, chatId: int, text: string, j: nat)
    requires j < |chats| && ChatIndex(chats, chatId) != Some(j)
    ensures Bumped(chats, chatId, text)[j] == chats[j]
  {
  }

  /** The message list after a status update: the first message with that id gets the new status. */
  function WithStatus(msgs: seq<Message>, id: string, status: string): (r: seq<Message>)
    ensures |r| == |msgs|
  {
    match MessageIndex(msgs, id)
    case None => msgs
    case Some(k) => msgs[k := msgs[k].(status := status)]
  }

  /** A status update touches only the status of the first message with the id, and nothing when no message has it. */
  lemma StatusUpdateTouchesOne(msgs: seq<Message>, id: string, status: string)
    ensures MessageIndex(msgs, id).None? ==> WithStatus(msgs, id, status) == msgs
    ensures forall j :: 0 <= j < |msgs| ==>
      WithStatus(msgs, id, status)[j].(status := msgs[j].status) == msgs[j]
    ensures forall j :: 0 <= j < |msgs| && j != MessageIndex(msgs, id).GetOr(|msgs|) ==>
      WithStatus(msgs, id, status)[j] == msgs[j]
    ensures MessageIndex(msgs, id).Some? ==> WithStatus(msgs, id, status)[MessageIndex(msgs, id).value].status == status
  {
  }

  /** The chat list after a preview update of `updateChatPreview`. */
  function Previewed(chats: seq<ChatEntry>, chatId: int, text: string): (r: seq<ChatEntry>)
    ensures |r| == |chats| && TotalUnread(r) == TotalUnread(chats)
    ensures ChatIndex(chats, chatId).None? ==> r == chats
    ensures ChatIndex(chats, chatId).Some? ==>
      var k := ChatIndex(chats, chatId).value;
      r[k].lastMessage == text && r[k].(lastMessage := chats[k].lastMessage) == chats[k] &&
      forall j :: 0 <= j < |chats| && j != k ==> r[j] == chats[j]
  {
    match ChatIndex(chats, chatId)
    case None => chats
    case Some(k) =>
      TotalUnreadUpdate(chats, k, chats[k].(lastMessage := text));
      chats[k := chats[k].(lastMessage := text)]
  }

  /** Where the temporary message is looked up after the push: the first message with its id, which is itself when the id is new. */
  function TempIndex(msgs: seq<Message>, temp: Message): (k: nat)
    ensures k <= |msgs| && (msgs + [temp])[k].id == temp.id
    ensures forall j :: 0 <= j < k ==> msgs[j].id != temp.id
  {
    match MessageIndex(msgs, temp.id)
    case Some(k) => k
    case None => |msgs|
  }

  /** The lookup the page does after the push finds `TempIndex`. */
  lemma PushedIndex(msgs: seq<Message>, temp: Message)
    ensures MessageIndex(msgs + [temp], temp.id) == Some(TempIndex(msgs, temp))
  {
    var all := msgs + [temp];
    var k := TempIndex(msgs, temp);
    var i := MessageIndex(all, temp.id);
    assert all[k].id == temp.id;
    assert forall j :: 0 <= j < k ==> all[j].id != temp.id;
  }

  /** What a message that could not be sent reads. */
  function FailedText(text: string): string { text + " (falha no envio)" }

  /** The demo conversation of chat 1. */
  const MockChat1: seq<Message> := [
    Message("1", "Olá! Gostaria de saber mais sobre as doações de hoje.", "user", "delivered"),
    Message("2", "Oi! Temos várias opções disponíveis hoje. Pão integral, frutas da estação e legumes orgânicos.", "contact", "read"),
    Message("3", "Que ótimo! Posso reservar alguns pães e legumes?", "user", "delivered"),
    Message("4", "Claro! Pode vir buscar entre 14h e 18h. Temos bastante disponibilidade hoje.", "contact", "read"),
    Message("5", "Perfeito! Muito obrigado pela iniciativa \U{1F60A}", "user", "read")]

  /** The demo conversation of chat 2. */
  const MockChat2: seq<Message> := [
    Message("1", "Precisamos de voluntários para sábado", "contact", "read"),
    Message("2", "Posso ajudar! Que horas?", "user", "delivered")]

  /** `getMockHistory`: the demo conversation of chats 1 and 2, and nothing for any other chat. */
  function MockHistory(chatId: int): (h: seq<Message>)
    ensures chatId == 1 ==> |h| == 5
    ensures chatId == 2 ==> |h| == 2
    ensures chatId != 1 && chatId != 2 ==> h == []
  {
    if chatId == 1 then MockChat1
    else if chatId == 2 then MockChat2
    else []
  }

  /**
   * `apiClient.fetchHistory` never throws: the server's messages when the
   * request answers (an answer without messages reads as none), the demo
   * conversation when it fails.
   */
  function LoadedHistory(server: Option<seq<Message>>, chatId: int): (h: seq<Message>)
    ensures server.Some? ==> h == server.value
    ensures server.None? && chatId != 1 && chatId != 2 ==> h == []
    ensures server.None? && (chatId == 1 || chatId == 2) ==> h != [] && h == MockHistory(chatId)
  {
    match server
    case Some(msgs) => msgs
    case None => MockHistory(chatId)
  }

  /** A send goes ahead with a non-empty trimmed text and an open chat (an id of 0 reads as none). */
  predicate Sendable(text: string, current: Option<int>) {
    text != [] && current.Some? && current.value != 0
  }

  /** The temporary message shown while the send is under way, with the id `temp-` and the time stamp. */
  function Temporary(stamp: string, text: string): (m: Message)
    ensures m.id == "temp-" + stamp && m.text == text && m.status == "sending"
  {
    Message("temp-" + stamp, text, "user", "sending")
  }

  /** `createLocalMessage`: the copy built when the request fails, with the id `local-` and the time stamp; it reads as sent. */
  function LocalMessage(stamp: string, text: string, sender: string): (m: Message)
    ensures m.id == "local-" + stamp && m.text == text && m.sender == sender && m.status == "sent"
  {
    Message("local-" + stamp, text, sender, "sent")
  }

  /** A local copy never carries a temporary id, whatever the two time stamps. */
  lemma LocalIsNotTemporary(stamp: string, localStamp: string, text: string)
    ensures LocalMessage(localStamp, text, "user").id != Temporary(stamp, text).id
  {
    assert LocalMessage(localStamp, text, "user").id[0] == 'l';
    assert Temporary(stamp, text).id[0] == 't';
  }

  /**
   * `apiClient.sendMessage` never throws: the server's copy when the request
   * answers (`server`), and the local copy when it fails.
   */
  function SendAnswer(server: Option<Message>, localStamp: string, text: string): (m: Message)
    ensures server.Some? ==> m == server.value
    ensures server.None? ==> m.status == "sent" && m.text == text && m.id == "local-" + localStamp
  {
    match server
    case Some(msg) => msg
    case None => LocalMessage(localStamp, text, "user")
  }

  /** The catch branch of the page's `sendMessage`: the first message still carrying the temporary id, if any, turns into an error with the failure suffix. */
  function MarkedFailed(msgs: seq<Message>, tempId: string, text: string): (r: seq<Message>)
    ensures |r| == |msgs|
    ensures MessageIndex(msgs, tempId).None? ==> r == msgs
  {
    match MessageIndex(msgs, tempId)
    case None => msgs
    case Some(k) => msgs[k := msgs[k].(status := "error", text := FailedText(text))]
  }

  /**
   * The messages after a send that got past the checks: the temporary message
   * pushed, then replaced by the answer of `apiClient.sendMessage`; when a
   * later step of the try block throws (`thrown`), the catch branch marks the
   * message that still has the temporary id.
   */
  function AfterSend(msgs: seq<Message>, temp: Message, sent: Message, thrown: bool): (r: seq<Message>)
    ensures |r| == |msgs| + 1
  {
    var replaced := (msgs + [temp])[TempIndex(msgs, temp) := sent];
    if thrown then MarkedFailed(replaced, temp.id, temp.text) else replaced
  }

  /**
   * With an id no message has yet, a send appends exactly one message: the
   * answer, which a later throw marks as failed only when the answer kept the
   * temporary id.
   */
  lemma FreshSendAppends(msgs: seq<Message>, temp: Message, sent: Message, thrown: bool)
    requires forall j :: 0 <= j < |msgs| ==> msgs[j].id != temp.id
    ensures !thrown || sent.id != temp.id ==> AfterSend(msgs, temp, sent, thrown) == msgs + [sent]
    ensures thrown && sent.id == temp.id ==>
      AfterSend(msgs, temp, sent, thrown) == msgs + [sent.(status := "error", text := FailedText(temp.text))]
  {
    assert MessageIndex(msgs, temp.id).None?;
    assert TempIndex(msgs, temp) == |msgs|;
    var replaced := (msgs + [temp])[|msgs| := sent];
    assert replaced == msgs + [sent];
    if sent.id != temp.id {
      assert forall j :: 0 <= j < |replaced| ==> replaced[j].id != temp.id;
      assert MessageIndex(replaced, temp.id).None?;
    } else {
      assert replaced[|msgs|].id == temp.id;
      assert forall j :: 0 <= j < |msgs| ==> replaced[j].id != temp.id;
      assert MessageIndex(replaced, temp.id) == Some(|msgs|);
    }
  }

  /** When the request fails the message shown is the local copy, which reads as sent: the failure never shows as an error, even after a later throw. */
  lemma FailedRequestReadsSent(msgs: seq<Message>, stamp: string, localStamp: string, text: string, thrown: bool)
    requires forall j :: 0 <= j < |msgs| ==> msgs[j].id != Temporary(stamp, text).id
    ensures AfterSend(msgs, Temporary(stamp, text), SendAnswer(None, localStamp, text), thrown) ==
      msgs + [LocalMessage(localStamp, text, "user")]
    ensures AfterSend(msgs, Temporary(stamp, text), SendAnswer(None, localStamp, text), thrown)[|msgs|].status == "sent"
  {
    LocalIsNotTemporary(stamp, localStamp, text);
    FreshSendAppends(msgs, Temporary(stamp, text), SendAnswer(None, localStamp, text), thrown);
  }

  /** Without a later throw, a send never changes any message other than the one at the temporary index. */
  lemma SendTouchesOne(msgs: seq<Message>, temp: Message, sent: Message, j: nat)
    requires j < |msgs| && j != TempIndex(msgs, temp)
    ensures AfterSend(msgs, temp, sent, false)[j] == msgs[j]
  {
  }

  /** The messages part of the page's `sendMessage`: push the temporary message, look it up by id and replace it, and on a later throw look the id up again and mark that message failed. */
  method Settle(msgs: seq<Message>, temp: Message, sent: Message, thrown: bool) returns (r: seq<Message>)
    ensures r == AfterSend(msgs, temp, sent, thrown)
  {
    r := msgs + [temp];
    PushedIndex(msgs, temp);
    var k := MessageIndex(r, temp.id).value;
    r := r[k := sent];
    if thrown {
      match MessageIndex(r, temp.id) {
        case None =>
        case Some(i) =>
          r := r[i := r[i].(status := "error", text := FailedText(temp.text))];
      }
    }
  }

  class ChatState {
    var currentChatId: Option<int>
    var messages: seq<Message>
    var chats: seq<ChatEntry>
    /** The typing indicator carries its `active` class, so it is visible. */
    var typingShown: bool
    /** The header's online mark for the open chat. */
    var contactOnline: bool

    constructor ()
      ensures currentChatId.None? && messages == [] && chats == [] && !typingShown
    {
      currentChatId := None;
      messages := [];
      chats := [];
      typingShown := false;
      contactOnline := false;
    }

    /**
     * `handleWebSocketMessage`: a new message for the open chat is appended;
     * for another chat it bumps that chat's unread counter and preview;
     * typing marks follow the open chat; presence updates the chat of that
     * user; a status update changes the status of the message with that id.
     */
    method HandleMessage(e: Event)
      modifies this
      ensures currentChatId == old(currentChatId)
      ensures e.NewMessage? && old(currentChatId) == Some(e.chatId) ==>
        messages == old(messages) + [e.data] && chats == old(chats)
      ensures e.NewMessage? && old(currentChatId) != Some(e.chatId) ==>
        messages == old(messages) && chats == Bumped(old(chats), e.chatId, e.data.text)
      ensures e.StatusUpdate? ==>
        messages == WithStatus(old(messages), e.messageId, e.newStatus) && chats == old(chats)
      ensures (e.TypingStart? || e.TypingStop?) ==> messages == old(messages) && chats == old(chats)
      ensures e.TypingStart? ==> typingShown == (old(typingShown) || old(currentChatId) == Some(e.typingChat))
      ensures e.TypingStop? ==> typingShown == (old(typingShown) && old(currentChatId) != Some(e.stoppedChat))
      ensures (e.UserOnline? || e.UserOffline?) ==> messages == old(messages) && |chats| == |old(chats)|
      ensures e.UserOnline? && UserChatIndex(old(chats), e.onlineUser).Some? ==>
        chats == old(chats)[UserChatIndex(old(chats), e.onlineUser).value := old(chats)[UserChatIndex(old(chats), e.onlineUser).value].(online := true)]
      ensures e.UserOffline? && UserChatIndex(old(chats), e.offlineUser).Some? ==>
        chats == old(chats)[UserChatIndex(old(chats), e.offlineUser).value := old(chats)[UserChatIndex(old(chats), e.offlineUser).value].(online := false)]
      ensures (e.UserOnline? || e.UserOffline?) && UserChatIndex(old(chats), if e.UserOnline? then e.onlineUser else e.offlineUser).None? ==>
        chats == old(chats)
      ensures e.UnknownEvent? ==> messages == old(messages) && chats == old(chats)
      ensures !(e.TypingStart? || e.TypingStop?) ==> typingShown == old(typingShown)
      ensures !(e.UserOnline? || e.UserOffline?) ==> contactOnline == old(contactOnline)
      ensures (e.UserOnline? || e.UserOffline?) ==>
        var u := if e.UserOnline? then e.onlineUser else e.offlineUser;
        (UserChatIndex(old(chats), u).None? ==> contactOnline == old(contactOnline)) &&
        (UserChatIndex(old(chats), u).Some? ==>
          contactOnline == (if old(currentChatId) == Some(old(chats)[UserChatIndex(old(chats), u).value].id)
                            then e.UserOnline? else old(contactOnline)))
    {
      match e {
        case NewMessage(chatId, data) =>
          if currentChatId == Some(chatId) {
            messages := messages + [data];
          } else {
            chats := Bumped(chats, chatId, data.text);
          }
        case TypingStart(chatId) =>
          if currentChatId == Some(chatId) {
            typingShown := true;
          }
        case TypingStop(chatId) =>
          if currentChatId == Some(chatId) {
            typingShown := false;
          }
        case UserOnline(userId) =>
          SetOnline(userId, true);
        case UserOffline(userId) =>
          SetOnline(userId, false);
        case StatusUpdate(id, status) =>
          messages := WithStatus(messages, id, status);
        case UnknownEvent =>
      }
    }

    /** `updateUserStatus`: the first chat of that user takes the mark, and the header too when it is the open chat. */
    method SetOnline(userId: int, online: bool)
      modifies this
      ensures currentChatId == old(currentChatId) && messages == old(messages) && typingShown == old(typingShown)
      ensures UserChatIndex(old(chats), userId).None? ==> chats == old(chats) && contactOnline == old(contactOnline)
      ensures UserChatIndex(old(chats), userId).Some? ==>
        var k := UserChatIndex(old(chats), userId).value;
        chats == old(chats)[k := old(chats)[k].(online := online)] &&
        contactOnline == (if old(currentChatId) == Some(old(chats)[k].id) then online else old(contactOnline))
    {
      match UserChatIndex(chats, userId)
      case None =>
      case Some(k) =>
        chats := chats[k := chats[k].(online := online)];
        if currentChatId == Some(chats[k].id) {
          contactOnline := online;
        }
    }

    /**
     * `sendMessage`: nothing for a blank text or without an open chat (0 reads
     * as none). Otherwise a temporary `sending` message stamped `stamp` is
     * pushed and replaced by what `apiClient.sendMessage` answers: the
     * server's copy (`server`), or the local copy stamped `localStamp` when
     * the request fails. `thrown` is a throw later in the try block, before
     * the preview update: the catch branch then marks the message that still
     * has the temporary id and the preview stays; otherwise the chat's preview
     * shows the text.
     */
    method SendMessage(input: string, stamp: string, server: Option<Message>, localStamp: string, thrown: bool)
      modifies this
      ensures currentChatId == old(currentChatId)
      ensures !Sendable(Trim(input), old(currentChatId)) ==> messages == old(messages) && chats == old(chats)
      ensures Sendable(Trim(input), old(currentChatId)) ==>
        messages == AfterSend(old(messages), Temporary(stamp, Trim(input)), SendAnswer(server, localStamp, Trim(input)), thrown) &&
        chats == (if thrown then old(chats) else Previewed(old(chats), old(currentChatId).value, Trim(input)))
    {
      var text := Trim(input);
      if Sendable(text, currentChatId) {
        Post(text, stamp, server, localStamp, thrown);
      }
    }

    /** The part of `sendMessage` after the checks, for the trimmed text. */
    method Post(text: string, stamp: string, server: Option<Message>, localStamp: string, thrown: bool)
      requires Sendable(text, currentChatId)
      modifies this
      ensures currentChatId == old(currentChatId)
      ensures messages == AfterSend(old(messages), Temporary(stamp, text), SendAnswer(server, localStamp, text), thrown)
      ensures chats == (if thrown then old(chats) else Previewed(old(chats), old(currentChatId).value, text))
    {
      messages := Settle(messages, Temporary(stamp, text), SendAnswer(server, localStamp, text), thrown);
      if !thrown {
        chats := Previewed(chats, currentChatId.value, text);
      }
    }

    /**
     * `loadChat`: nothing when the chat is already open; otherwise it becomes
     * the open chat, a known chat's online flag shows in the header and its
     * unread counter drops to 0, the rebuilt typing indicator is hidden, and the messages are what
     * `apiClient.fetchHistory` answers (`server`, `None` when the request
     * fails).
     */
    method LoadChat(chatId: int, server: Option<seq<Message>>)
      modifies this
      ensures old(currentChatId) == Some(chatId) ==>
        messages == old(messages) && chats == old(chats) && currentChatId == old(currentChatId) &&
        contactOnline == old(contactOnline)
      ensures old(currentChatId) == Some(chatId) ==> typingShown == old(typingShown)
      ensures old(currentChatId) != Some(chatId) ==> !typingShown
      ensures old(currentChatId) != Some(chatId) ==>
        currentChatId == Some(chatId) && messages == LoadedHistory(server, chatId) && |chats| == |old(chats)| &&
        (ChatIndex(old(chats), chatId).None? ==> chats == old(chats) && contactOnline == old(contactOnline)) &&
        (ChatIndex(old(chats), chatId).Some? ==>
          var k := ChatIndex(old(chats), chatId).value;
          chats == old(chats)[k := old(chats)[k].(unread := 0)] && contactOnline == old(chats)[k].online)
    {
      if currentChatId == Some(chatId) {
        return;
      }
      currentChatId := Some(chatId);
      messages := [];
      typingShown := false;
      match ChatIndex(chats, chatId) {
        case None =>
        case Some(k) =>
          contactOnline := chats[k].online;
          if chats[k].unread > 0 {
            chats := chats[k := chats[k].(unread := 0)];
          } else {
            assert chats[k := chats[k].(unread := 0)] == chats;
          }
      }
      messages := LoadedHistory(server, chatId);
    }
  }

  /** Opening a chat clears exactly its unread counter from the total. */
  lemma OpeningClearsUnread(chats: seq<ChatEntry>, k: nat)
    requires k < |chats|
    ensures TotalUnread(chats[k := chats[k].(unread := 0)]) == TotalUnread(chats) - chats[k].unread
  {
    TotalUnreadUpdate(chats, k, chats[k].(unread := 0));
  }

  // ----- the connection -----

  datatype ReadyState = Connecting | Open | Closing | Closed

  /** `getStatus`: the status text of a socket; no socket reads as disconnected. */
  function StatusText(socket: Option<ReadyState>): (t: string)
    ensures t == "disconnected" <==> socket.None? || socket == Some(Closed)
    ensures t == "connected" <==> socket == Some(Open)
  {
    match socket
    case None => "disconnected"
    case Some(Connecting) => "connecting"
    case Some(Open) => "connected"
    case Some(Closing) => "closing"
    case Some(Closed) => "disconnected"
  }

  /** `send`: a message goes out only on an open socket. */
  predicate CanSend(socket: Option<ReadyState>) {
    socket.Some? && socket.value == Open
  }

  /** A message can be sent exactly when the status reads `connected`. */
  lemma SendIffConnected(socket: Option<ReadyState>)
    ensures CanSend(socket) <==> StatusText(socket) == "connected"
  {
  }

  const MaxReconnectAttempts: nat := 5

  /** The socket of `connectWS` with its reconnect counter and whether a retry is scheduled. */
  class Connection {
    var socket: Option<ReadyState>
    var attempts: nat
    var retryPending: bool

    /** The counter never passes the maximum, and a retry is only scheduled below it. */
    ghost predicate Valid()
      reads this
    {
      attempts <= MaxReconnectAttempts && (retryPending ==> attempts < MaxReconnectAttempts)
    }

    /** `connectWS` opens a socket at once. */
    constructor ()
      ensures Valid() && socket == Some(Connecting) && attempts == 0 && !retryPending
    {
      socket := Some(Connecting);
      attempts := 0;
      retryPending := false;
    }

    /** `onopen`: the counter starts over. */
    method OnOpen()
      requires Valid()
      modifies this
      ensures Valid() && socket == Some(Open) && attempts == 0 && retryPending == old(retryPending)
    {
      socket := Some(Open);
      attempts := 0;
    }

    /** `onclose`: a retry is scheduled while the counter is below the maximum; at the maximum the socket stays closed. */
    method OnClose()
      requires Valid()
      modifies this
      ensures Valid() && socket == Some(Closed) && attempts == old(attempts)
      ensures retryPending == (old(retryPending) || old(attempts) < MaxReconnectAttempts)
    {
      socket := Some(Closed);
      if attempts < MaxReconnectAttempts {
        retryPending := true;
      }
    }

    /** The retry's timer: one more attempt and a new socket. */
    method RetryFires()
      requires Valid() && retryPending
      modifies this
      ensures Valid() && attempts == old(attempts) + 1 && socket == Some(Connecting) && !retryPending
    {
      attempts := attempts + 1;
      socket := Some(Connecting);
      retryPending := false;
    }

    /** `reconnect`: the counter starts over and a new socket is opened. */
    method Reconnect()
      requires Valid()
      modifies this
      ensures Valid() && attempts == 0 && socket == Some(Connecting) && retryPending == old(retryPending)
    {
      attempts := 0;
      socket := Some(Connecting);
    }

    /** `disconnect`: the socket is dropped. */
    method Disconnect()
      requires Valid()
      modifies this
      ensures Valid() && socket.None? && attempts == old(attempts) && retryPending == old(retryPending)
    {
      socket := None;
    }
  }
}
