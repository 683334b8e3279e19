/**
 * Sending chat messages, over REST and over the realtime socket: resolve the
 * sender and the recipient, store the message unread, and deliver one payload
 * to the private queue of each of the two users. A queue is addressed by the
 * user's id written in decimal; delivery appends to that user's queue.
 * The conversation query between two users is a parameter.
 */
module ChatHub {
  import opened Common
  import opened Text
  import opened UserPrincipal
  import opened Chats

  /** The user table: users by id, and the id each e-mail belongs to. */
  datatype UserTable = UserTable(byId: map<int, User>, byEmail: map<string, int>)
  {
    /** Each user is stored under its own id, as the primary key guarantees. */
    ghost predicate Keyed() {
      forall k :: k in byId ==> byId[k].id == k
    }
  }

  function FindById(us: UserTable, id: int): (u: Option<User>)
    ensures u.Some? <==> id in us.byId
    ensures u.Some? ==> u.value == us.byId[id]
  {
    if id in us.byId then Some(us.byId[id]) else None
  }

  function FindByEmail(us: UserTable, email: string): (u: Option<User>)
    ensures u.Some? <==> email in us.byEmail && us.byEmail[email] in us.byId
    ensures u.Some? ==> u.value == us.byId[us.byEmail[email]]
  {
    if email in us.byEmail && us.byEmail[email] in us.byId then Some(us.byId[us.byEmail[email]]) else None
  }

  /**
   * What is pushed to `/queue/messages`. `hasText` tells whether the payload
   * also carries the body under `text` (the REST path does, the socket path does not).
   */
  datatype Payload = Payload(id: int, senderId: int, senderName: string, content: Option<string>,
                             hasText: bool, timestamp: int, kind: string)

  /** The payloads queued so far for a user name. */
  function Queue(outbox: map<string, seq<Payload>>, user: string): (q: seq<Payload>)
    ensures user !in outbox ==> q == []
  {
    if user in outbox then outbox[user] else []
  }

  /** `convertAndSendToUser(user, "/queue/messages", p)`: appends to that user's queue only. */
  function Deliver(outbox: map<string, seq<Payload>>, user: string, p: Payload): (o: map<string, seq<Payload>>)
    ensures Queue(o, user) == Queue(outbox, user) + [p]
    ensures forall k :: k != user ==> Queue(o, k) == Queue(outbox, k)
    ensures o.Keys == outbox.Keys + {user}
  {
    outbox[user := Queue(outbox, user) + [p]]
  }

  /**
   * Delivering to the recipient and then to the sender: each of two distinct
   * users receives the payload once; a user writing to themself receives it twice.
   * Every other queue is unchanged.
   */
  lemma DoubleDelivery(outbox: map<string, seq<Payload>>, recipient: int, sender: int, p: Payload)
    ensures var o := Deliver(Deliver(outbox, IntToString(recipient), p), IntToString(sender), p);
      (recipient != sender ==>
        Queue(o, IntToString(recipient)) == Queue(outbox, IntToString(recipient)) + [p] &&
        Queue(o, IntToString(sender)) == Queue(outbox, IntToString(sender)) + [p]) &&
      (recipient == sender ==>
        Queue(o, IntToString(sender)) == Queue(outbox, IntToString(sender)) + [p, p]) &&
      (forall k :: k != IntToString(recipient) && k != IntToString(sender) ==> Queue(o, k) == Queue(outbox, k))
  {
    if recipient != sender && IntToString(recipient) == IntToString(sender) {
      IntToStringInjective(recipient, sender);
    }
  }

  /** The result of an endpoint: a status code and, on 200, a body. */
  datatype Reply<T> = Reply(code: int, body: Option<T>)

  /** How the socket's security context identifies the sender. */
  datatype SocketPrincipal = Bound(principal: Principal) | Named(name: string)
  datatype SocketAuth = SocketAuth(authenticated: bool, principal: SocketPrincipal)

  /** The sender of a socket frame: by id for a bound principal, otherwise by the name taken as an e-mail. */
  function SocketSender(us: UserTable, auth: Option<SocketAuth>): (u: Option<User>)
    ensures auth.None? || !auth.value.authenticated ==> u.None?
    ensures auth.Some? && auth.value.authenticated && auth.value.principal.Bound? ==>
      u == FindById(us, auth.value.principal.principal.userId)
    ensures auth.Some? && auth.value.authenticated && auth.value.principal.Named? ==>
      u == FindByEmail(us, auth.value.principal.name)
  {
    if auth.None? || !auth.value.authenticated then None
    else match auth.value.principal
      case Bound(p) => FindById(us, p.userId)
      case Named(email) => FindByEmail(us, email)
  }

  /** The stored messages and the queues of every user. */
  class ChatHub {
    var messages: seq<Message>
    var outbox: map<string, seq<Payload>>
    var nextId: int

    ghost predicate Valid()
      reads this
    {
      forall i :: 0 <= i < |messages| ==> messages[i].id < nextId
    }

    constructor ()
      ensures Valid() && messages == [] && outbox == map[] && nextId == 1
    {
      messages := [];
      outbox := map[];
      nextId := 1;
    }

    /** Stores a message, unread, under the next id; returns it. */
    method Save(sender: User, recipient: User, content: Option<string>, now: int) returns (saved: Message)
      requires Valid()
      modifies this
      ensures Valid()
      ensures saved == Message(old(nextId), sender.id, recipient.id, content, now, false)
      ensures messages == old(messages) + [saved] && nextId == old(nextId) + 1 && outbox == old(outbox)
    {
      saved := Message(nextId, sender.id, recipient.id, content, now, false);
      messages := messages + [saved];
      nextId := nextId + 1;
    }

    /**
     * The REST `sendMessage`: 401 when the caller's e-mail resolves to no user,
     * 400 for an unknown recipient, 500 for a missing recipient id (the lookup
     * rejects it). Only on 200 is anything stored or delivered; the payload is
     * typed "CHAT" and carries the body as both `content` and `text`.
     */
    method SendRest(us: UserTable, email: string, recipientId: Option<int>, content: Option<string>, now: int)
      returns (reply: Reply<Message>)
      requires Valid() && us.Keyed()
      modifies this
      ensures Valid()
      ensures reply.code in {200, 400, 401, 500}
      ensures reply.code != 200 ==> messages == old(messages) && outbox == old(outbox) && nextId == old(nextId)
      ensures reply.code == 401 <==> FindByEmail(us, email).None?
      ensures reply.code == 200 <==> FindByEmail(us, email).Some? && recipientId.Some? && FindById(us, recipientId.value).Some?
      ensures reply.code == 200 ==>
        var sender := FindByEmail(us, email).value;
        var saved := Message(old(nextId), sender.id, recipientId.value, content, now, false);
        var p := Payload(old(nextId), sender.id, sender.name, content, true, now, "CHAT");
        reply.body == Some(saved) &&
        messages == old(messages) + [saved] && nextId == old(nextId) + 1 &&
        outbox == Deliver(Deliver(old(outbox), IntToString(recipientId.value), p), IntToString(sender.id), p)
    {
      var sender := FindByEmail(us, email);
      if sender.None? {
        return Reply(401, None);
      }
      if recipientId.None? {
        return Reply(500, None);
      }
      var recipient := FindById(us, recipientId.value);
      if recipient.None? {
        return Reply(400, None);
      }
      var saved := Save(sender.value, recipient.value, content, now);
      var p := Payload(saved.id, sender.value.id, sender.value.name, saved.content, true, saved.createdAt, "CHAT");
      outbox := Deliver(outbox, IntToString(recipient.value.id), p);
      outbox := Deliver(outbox, IntToString(sender.value.id), p);
      reply := Reply(200, Some(saved));
    }

    /**
     * The socket `sendMessage`: a frame without an authenticated sender, without
     * a recipient id, or naming an unknown recipient is dropped silently; otherwise
     * the message is stored unread and one payload (no `text`) goes to each party.
     */
    method SendFrame(us: UserTable, auth: Option<SocketAuth>, recipientId: Option<int>, content: Option<string>, now: int)
      requires Valid() && us.Keyed()
      modifies this
      ensures Valid()
      ensures (SocketSender(us, auth).None? || recipientId.None? || FindById(us, recipientId.value).None?) ==>
        messages == old(messages) && outbox == old(outbox) && nextId == old(nextId)
      ensures SocketSender(us, auth).Some? && recipientId.Some? && FindById(us, recipientId.value).Some? ==>
        var sender := SocketSender(us, auth).value;
        var saved := Message(old(nextId), sender.id, recipientId.value, content, now, false);
        var p := Payload(old(nextId), sender.id, sender.name, content, false, now, "CHAT");
        messages == old(messages) + [saved] && nextId == old(nextId) + 1 &&
        outbox == Deliver(Deliver(old(outbox), IntToString(recipientId.value), p), IntToString(sender.id), p)
    {
      var sender := SocketSender(us, auth);
      if sender.None? {
        return;
      }
      if recipientId.None? {
        return;
      }
      var recipient := FindById(us, recipientId.value);
      if recipient.None? {
        return;
      }
      var saved := Save(sender.value, recipient.value, content, now);
      var p := Payload(saved.id, sender.value.id, sender.value.name, saved.content, false, saved.createdAt, "CHAT");
      outbox := Deliver(outbox, IntToString(recipientId.value), p);
      outbox := Deliver(outbox, IntToString(sender.value.id), p);
    }
  }

  /** `getConversation`: 401 for an unknown caller, 400 for an unknown other user, else their conversation. */
  function GetConversation(us: UserTable, email: string, otherId: int, conversation: (User, User) -> seq<Message>)
    : (r: Reply<seq<Message>>)
    ensures r.code in {200, 400, 401}
    ensures r.code == 401 <==> FindByEmail(us, email).None?
    ensures r.code == 400 <==> FindByEmail(us, email).Some? && FindById(us, otherId).None?
    ensures r.code == 200 ==> r.body == Some(conversation(FindByEmail(us, email).value, us.byId[otherId]))
  {
    match FindByEmail(us, email)
    case None => Reply(401, None)
    case Some(me) =>
      match FindById(us, otherId)
      case None => Reply(400, None)
      case Some(other) => Reply(200, Some(conversation(me, other)))
  }

  /** One entry of `getChats`. */
  datatype ChatEntry = ChatEntry(id: int, token: string, other: User, last: Option<Message>,
                                 requestId: int, createdAt: int, active: bool)

  function Entry(c: Chat, me: User, conversation: (User, User) -> seq<Message>): (e: ChatEntry)
    ensures e.other == OtherParticipant(c, me)
    ensures e.last.Some? <==> conversation(c.user1, c.user2) != []
    ensures e.last.Some? ==> e.last.value == conversation(c.user1, c.user2)[|conversation(c.user1, c.user2)| - 1]
    ensures e.id == c.id && e.token == c.token && e.createdAt == c.createdAt && e.active == c.active
  {
    ChatEntry(c.id, c.token, OtherParticipant(c, me), LastMessage(conversation(c.user1, c.user2)),
              c.requestId, c.createdAt, c.active)
  }

  /** `getChats`: 401 for an unknown caller, else one entry per chat of `findByUsuario`, in its order. */
  function GetChats(us: UserTable, email: string, chats: seq<Chat>, conversation: (User, User) -> seq<Message>)
    : (r: Reply<seq<ChatEntry>>)
    ensures r.code == 401 <==> FindByEmail(us, email).None?
    ensures r.code != 401 ==> r.code == 200 && r.body.Some?
    ensures r.code == 200 ==>
      var me := FindByEmail(us, email).value;
      var cs := FindByUser(chats, me);
      |r.body.value| == |cs| &&
      (forall i :: 0 <= i < |cs| ==> r.body.value[i] == Entry(cs[i], me, conversation)) &&
      (forall i :: 0 <= i < |cs| ==> r.body.value[i].active && Participant(cs[i], me))
  {
    match FindByEmail(us, email)
    case None => Reply(401, None)
    case Some(me) =>
      var cs := FindByUser(chats, me);
      assert forall i :: 0 <= i < |cs| ==> cs[i] in cs;
      Reply(200, Some(seq(|cs|, i requires 0 <= i < |cs| => Entry(cs[i], me, conversation))))
  }
}
