/**
 * Chats between a donor (`usuario1`) and a requester (`usuario2`), opened for
 * one request: the record and its defaults, the repository's lookups, and the
 * service's choice of the other participant and of the last message.
 * Times are integers; the chat table is a sequence in storage order.
 */
module Chats {
  import opened Common
  import opened Uuid

  datatype User = User(id: int, name: string, email: string, avatarUrl: Option<string>)

  /** A stored chat message (`Mensagem`). */
  datatype Message = Message(id: int, senderId: int, recipientId: int, content: Option<string>, createdAt: int, read: bool)

  datatype Chat = Chat(id: int, token: string, user1: User, user2: User, requestId: int, createdAt: int, active: bool)

  /** A fresh chat: active, created now, with a random UUID token (at most 36 characters, as the column allows). */
  function NewChat(id: int, donor: User, requester: User, requestId: int, now: int, random: seq<Byte>): (c: Chat)
    requires |random| == 16
    ensures c.active && c.createdAt == now
    ensures c.user1 == donor && c.user2 == requester && c.requestId == requestId
    ensures |c.token| == 36 && c.token[14] == '4'
  {
    Chat(id, RandomToken(random), donor, requester, requestId, now, true)
  }

  /** The same entity as the query sees it: users are compared by id. */
  predicate Participant(c: Chat, u: User) {
    c.user1.id == u.id || c.user2.id == u.id
  }

  // ----- the service -----

  /** `obterOutroParticipante`: `usuario2` when the caller is `usuario1` by id, `usuario1` in every other case. */
  function OtherParticipant(c: Chat, me: User): (u: User)
    ensures u == c.user1 || u == c.user2
    ensures c.user1.id == me.id ==> u == c.user2
    ensures c.user1.id != me.id ==> u == c.user1
  {
    if c.user1.id == me.id then c.user2 else c.user1
  }

  /**
   * For a participant of a chat between two distinct users, the other
   * participant is the one who is not the caller, and asking again from
   * their side gives the caller back.
   */
  lemma OtherParticipantSwaps(c: Chat, me: User)
    requires Participant(c, me) && c.user1.id != c.user2.id
    ensures Participant(c, OtherParticipant(c, me)) && OtherParticipant(c, me).id != me.id
    ensures OtherParticipant(c, OtherParticipant(c, me)).id == me.id
  {
  }

  /** A caller who is not in the chat gets `usuario1` and no error. */
  lemma OutsiderGetsDonor(c: Chat, me: User)
    requires !Participant(c, me)
    ensures OtherParticipant(c, me) == c.user1
  {
  }

  /** `obterUltimaMensagem`: nothing for an empty conversation, else its last element. */
  function LastMessage(conversation: seq<Message>): (m: Option<Message>)
    ensures m.None? <==> conversation == []
    ensures m.Some? ==> m.value == conversation[|conversation| - 1]
  {
    if conversation == [] then None else Some(conversation[|conversation| - 1])
  }

  /** After a message is appended to a conversation, it is the last message. */
  lemma LastMessageAfterAppend(conversation: seq<Message>, m: Message)
    ensures LastMessage(conversation + [m]) == Some(m)
  {
  }

  // ----- the repository -----

  /** Newest first by creation time. */
  predicate NewestFirst(s: seq<Chat>) {
    forall i, j :: 0 <= i < j < |s| ==> s[i].createdAt >= s[j].createdAt
  }

  /** A chat no older than every element of a newest-first sequence can head it. */
  lemma PrependNewest(x: Chat, s: seq<Chat>)
    requires NewestFirst(s)
    requires forall y :: y in s ==> x.createdAt >= y.createdAt
    ensures NewestFirst([x] + s)
  {
    forall i, j | 0 <= i < j < |[x] + s| ensures ([x] + s)[i].createdAt >= ([x] + s)[j].createdAt {
      if i > 0 {
        assert ([x] + s)[i] == s[i - 1];
      }
      assert ([x] + s)[j] == s[j - 1];
      assert s[j - 1] in s;
    }
  }

  function InsertByDate(c: Chat, s: seq<Chat>): (r: seq<Chat>)
    requires NewestFirst(s)
    ensures NewestFirst(r)
    ensures multiset(r) == multiset(s) + multiset{c}
    ensures forall x :: x in r ==> x in s || x == c
  {
    if s == [] || c.createdAt >= s[0].createdAt then
      HeadIsNewest(s);
      PrependNewest(c, s);
      [c] + s
    else
      TailNewest(s);
      var rest := InsertByDate(c, s[1..]);
      assert s == [s[0]] + s[1..];
      HeadIsNewest(s);
      PrependNewest(s[0], rest);
      [s[0]] + rest
  }

  /** The head of a newest-first sequence is no older than any of its elements. */
  lemma HeadIsNewest(s: seq<Chat>)
    requires NewestFirst(s)
    ensures s != [] ==> forall y :: y in s ==> s[0].createdAt >= y.createdAt
  {
    forall y | y in s ensures s[0].createdAt >= y.createdAt {
      var k :| 0 <= k < |s| && s[k] == y;
    }
  }

  /** The tail of a newest-first sequence is newest first. */
  lemma TailNewest(s: seq<Chat>)
    requires NewestFirst(s) && s != []
    ensures NewestFirst(s[1..])
  {
    forall i, j | 0 <= i < j < |s[1..]| ensures s[1..][i].createdAt >= s[1..][j].createdAt {
      assert s[1..][i] == s[i + 1] && s[1..][j] == s[j + 1];
    }
  }

  /** An ordering of `s` by creation time, newest first (ties in no promised order). */
  function SortByDate(s: seq<Chat>): (r: seq<Chat>)
    ensures NewestFirst(r)
    ensures multiset(r) == multiset(s)
  {
    if s == [] then []
    else
      assert s == [s[0]] + s[1..];
      InsertByDate(s[0], SortByDate(s[1..]))
  }

  /** `findByUsuario` (and `listarChatsDoUsuario`, which returns it): the user's active chats, newest first. */
  function FindByUser(chats: seq<Chat>, u: User): (r: seq<Chat>)
    ensures NewestFirst(r)
    ensures multiset(r) == multiset(Filter(chats, (c: Chat) => c.active && Participant(c, u)))
    ensures forall c :: c in r <==> c in chats && c.active && Participant(c, u)
  {
    var r := SortByDate(Filter(chats, (c: Chat) => c.active && Participant(c, u)));
    forall c | c in chats && c.active && Participant(c, u) ensures c in r {
      FilterKeeps(chats, (c: Chat) => c.active && Participant(c, u), c);
      assert c in multiset(r);
    }
    forall c | c in r ensures c in chats && c.active && Participant(c, u) {
      assert c in multiset(Filter(chats, (c: Chat) => c.active && Participant(c, u)));
    }
    r
  }

  /** A lookup returning `Optional`: no row, one row, or more than one (an error in the data layer). */
  datatype Lookup = NoMatch | Unique(chat: Chat) | TooMany

  function Single(s: seq<Chat>): (l: Lookup)
    ensures l.NoMatch? <==> |s| == 0
    ensures l.Unique? <==> |s| == 1
    ensures l.Unique? ==> l.chat == s[0]
  {
    if |s| == 0 then NoMatch else if |s| == 1 then Unique(s[0]) else TooMany
  }

  predicate Between(c: Chat, a: User, b: User) {
    c.active && ((c.user1.id == a.id && c.user2.id == b.id) || (c.user1.id == b.id && c.user2.id == a.id))
  }

  /** `findChatEntreUsuarios`: the active chat of the two users, in either role. */
  function FindBetween(chats: seq<Chat>, a: User, b: User): (l: Lookup)
    ensures l.Unique? ==> l.chat in chats && l.chat.active && Participant(l.chat, a) && Participant(l.chat, b)
    ensures l.NoMatch? <==> forall c :: c in chats ==> !Between(c, a, b)
  {
    FilterEmpty(chats, c => Between(c, a, b));
    Single(Filter(chats, c => Between(c, a, b)))
  }

  /** The lookup does not depend on which user is named first. */
  lemma FindBetweenSymmetric(chats: seq<Chat>, a: User, b: User)
    ensures FindBetween(chats, a, b) == FindBetween(chats, b, a)
  {
    FilterAgree(chats, c => Between(c, a, b), c => Between(c, b, a));
  }

  /** `findByToken`. */
  function FindByToken(chats: seq<Chat>, token: string): (l: Lookup)
    ensures l.Unique? ==> l.chat in chats && l.chat.token == token
    ensures l.NoMatch? <==> forall c :: c in chats ==> c.token != token
  {
    FilterEmpty(chats, (c: Chat) => c.token == token);
    Single(Filter(chats, (c: Chat) => c.token == token))
  }

  /** `findBySolicitacaoId`. */
  function FindByRequest(chats: seq<Chat>, requestId: int): (l: Lookup)
    ensures l.Unique? ==> l.chat in chats && l.chat.requestId == requestId
    ensures l.NoMatch? <==> forall c :: c in chats ==> c.requestId != requestId
  {
    FilterEmpty(chats, (c: Chat) => c.requestId == requestId);
    Single(Filter(chats, (c: Chat) => c.requestId == requestId))
  }

  /** The token column is unique. */
  ghost predicate TokensUnique(chats: seq<Chat>) {
    forall i, j :: 0 <= i < j < |chats| ==> chats[i].token != chats[j].token
  }

  /** With unique tokens, a token lookup never finds more than one chat. */
  lemma {:induction false} TokenLookupAtMostOne(chats: seq<Chat>, token: string)
    requires TokensUnique(chats)
    ensures !FindByToken(chats, token).TooMany?
    ensures FindByToken(chats, token).NoMatch? <==> forall c :: c in chats ==> c.token != token
  {
    if chats != [] {
      var rest := chats[1..];
      assert TokensUnique(rest) by {
        forall i, j | 0 <= i < j < |rest| ensures rest[i].token != rest[j].token {
          assert rest[i] == chats[i + 1] && rest[j] == chats[j + 1];
        }
      }
      TokenLookupAtMostOne(rest, token);
      if chats[0].token == token {
        forall c | c in rest ensures c.token != token {
          var j :| 0 <= j < |rest| && rest[j] == c;
          assert c == chats[j + 1];
        }
      }
    }
  }

  /** Nothing makes the request column unique: two chats for one request make the lookup fail. */
  lemma RequestLookupCanFail(a: Chat, b: Chat)
    requires a.requestId == b.requestId
    ensures FindByRequest([a, b], a.requestId) == TooMany
  {
    assert [a, b][1..] == [b];
  }
}
