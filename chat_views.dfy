/** The REST actions of the conversation and message view sets, as methods
    over the store. Each guard of an action becomes one branch with its own
    response, checked in the order the action checks it; only when every
    guard passes does the action change the store. */
module ChatViews {
  import opened Collections
  import opened ChatModels

  /** `message_type` when the request gives none. */
  const DefaultMessageType := "text"

  /** One constructor per distinct outcome of an action. */
  datatype Response =
    | Created(id: Id)                                  // 201
    | Done                                             // 200, "... successfully"
    | UnreadMessages(messages: seq<Id>, count: nat)    // 200, the `unread` listing
    | MissingField                                     // 400, a required value absent or empty
    | InvalidParticipants                              // 400, an id unknown or repeated
    | LastParticipant                                  // 400, would remove the last participant
    | OwnMessage                                       // 400, a user reading their own message
    | NotParticipant                                   // 403
    | ConversationNotFound                             // 404
    | MessageNotFound                                  // 404
    | UserNotFound                                     // 404
    | SenderNotFound                                   // 404

  /** The HTTP status each outcome is sent with. */
  function StatusCode(r: Response): (code: int)
    ensures code in {200, 201, 400, 403, 404}
    ensures code == 201 <==> r.Created?
    ensures code == 200 <==> r.Done? || r.UnreadMessages?
    ensures code == 400 <==> r.MissingField? || r.InvalidParticipants? || r.LastParticipant? || r.OwnMessage?
    ensures code == 403 <==> r.NotParticipant?
    ensures code == 404 <==> r.ConversationNotFound? || r.MessageNotFound? || r.UserNotFound? || r.SenderNotFound?
  {
    match r
    case Created(_) => 201
    case Done | UnreadMessages(_, _) => 200
    case MissingField | InvalidParticipants | LastParticipant | OwnMessage => 400
    case NotParticipant => 403
    case ConversationNotFound | MessageNotFound | UserNotFound | SenderNotFound => 404
  }

  /** `ConversationViewSet.create`: rejects an empty id list, then any list
      whose number of matching users differs from its length (so an unknown id
      and a repeated id are both rejected); otherwise creates one conversation
      whose participants are exactly the listed users. */
  method CreateConversation(store: ChatStore, participantIds: seq<Id>, title: string) returns (r: Response)
    requires store.Valid()
    modifies store`conversations, store`nextId
    ensures store.Valid()
    ensures participantIds == [] ==> r == MissingField
    ensures participantIds != [] && !r.Created? ==> r == InvalidParticipants
    ensures r.Created? <==> participantIds != [] && NoDup(participantIds) && Elems(participantIds) <= store.users.Keys
    ensures r.Created? ==>
      && r.id !in old(store.conversations)
      && store.conversations == old(store.conversations)[r.id := Conversation(title, ActiveByDefault, Elems(participantIds))]
    ensures !r.Created? ==> store.conversations == old(store.conversations)
  {
    if |participantIds| == 0 {
      return MissingField;
    }
    var participants := Elems(participantIds) * store.users.Keys;
    ExistingCountMatches(participantIds, store.users.Keys);
    if |participants| != |participantIds| {
      return InvalidParticipants;
    }
    assert participants == Elems(participantIds);
    var id := store.NewId();
    store.conversations := store.conversations[id := Conversation(title, ActiveByDefault, participants)];
    r := Created(id);
  }

  /** `ConversationViewSet.add_participant`. */
  method AddParticipant(store: ChatStore, conversationId: Id, userId: Option<Id>) returns (r: Response)
    requires store.Valid()
    modifies store`conversations
    ensures store.Valid()
    ensures conversationId !in store.conversations ==> r == ConversationNotFound
    ensures conversationId in store.conversations && userId.None? ==> r == MissingField
    ensures conversationId in store.conversations && userId.Some? && userId.value !in store.users ==> r == UserNotFound
    ensures r == Done <==> conversationId in old(store.conversations) && userId.Some? && userId.value in store.users
    ensures r == Done ==>
      store.conversations == old(store.conversations)[conversationId := old(store.conversations)[conversationId].WithParticipant(userId.value)]
    ensures r != Done ==> store.conversations == old(store.conversations)
  {
    if conversationId !in store.conversations {
      return ConversationNotFound;
    }
    if userId.None? {
      return MissingField;
    }
    if userId.value !in store.users {
      return UserNotFound;
    }
    var c := store.conversations[conversationId];
    store.conversations := store.conversations[conversationId := c.WithParticipant(userId.value)];
    r := Done;
  }

  /** `ConversationViewSet.remove_participant`: the unknown-user check comes
      before the last-participant guard, and the guard looks only at the
      participant count (not at whether the user participates). */
  method RemoveParticipant(store: ChatStore, conversationId: Id, userId: Option<Id>) returns (r: Response)
    requires store.Valid()
    modifies store`conversations
    ensures store.Valid()
    ensures conversationId !in store.conversations ==> r == ConversationNotFound
    ensures conversationId in store.conversations && userId.None? ==> r == MissingField
    ensures conversationId in store.conversations && userId.Some? && userId.value !in store.users ==> r == UserNotFound
    ensures (conversationId in old(store.conversations) && userId.Some? && userId.value in store.users
             && |old(store.conversations)[conversationId].participants| <= 1) ==> r == LastParticipant
    ensures r == Done <==>
      && conversationId in old(store.conversations) && userId.Some? && userId.value in store.users
      && |old(store.conversations)[conversationId].participants| > 1
    ensures r == Done ==>
      store.conversations == old(store.conversations)[conversationId := old(store.conversations)[conversationId].WithoutParticipant(userId.value)]
    ensures r != Done ==> store.conversations == old(store.conversations)
  {
    if conversationId !in store.conversations {
      return ConversationNotFound;
    }
    if userId.None? {
      return MissingField;
    }
    if userId.value !in store.users {
      return UserNotFound;
    }
    var c := store.conversations[conversationId];
    if |c.participants| <= 1 {
      return LastParticipant;
    }
    store.conversations := store.conversations[conversationId := c.WithoutParticipant(userId.value)];
    r := Done;
  }

  /** `MessageViewSet.get_queryset`: all messages, or on the nested route only
      those of the routed conversation. */
  function Queryset(store: ChatStore, conversationPk: Option<Id>): (r: set<Id>)
    reads store
    ensures r <= store.messages.Keys
    ensures conversationPk.None? ==> r == store.messages.Keys
    ensures forall m :: m in store.messages && conversationPk.Some? ==>
              (m in r <==> store.messages[m].conversation == conversationPk.value)
  {
    if conversationPk.None? then store.messages.Keys
    else set m | m in store.messages && store.messages[m].conversation == conversationPk.value
  }

  /** The conversation a message is sent to: the routed one if any, else the
      one named in the request body (`conversation_pk or data['conversation']`). */
  function Target(route: Option<Id>, fromBody: Option<Id>): Option<Id> {
    if route.Some? then route else fromBody
  }

  /** The 400 guard of message creation: any of sender, conversation or body
      missing, or the body empty. */
  predicate MissingMessageField(senderId: Option<Id>, conversationId: Option<Id>, body: Option<string>) {
    senderId.None? || conversationId.None? || body.None? || body.value == ""
  }

  /** `MessageViewSet.create`: missing field (400), unknown sender (404),
      unknown conversation (404), sender not a participant (403), in this
      order; otherwise exactly one new, unread message. `messageType` is
      `None` only when the key is absent, so a given empty type is kept. */
  method SendMessage(store: ChatStore, route: Option<Id>, senderId: Option<Id>, fromBody: Option<Id>,
                     body: Option<string>, messageType: Option<string>, now: int) returns (r: Response)
    requires store.Valid()
    modifies store`messages, store`nextId
    ensures store.Valid()
    ensures var cid := Target(route, fromBody);
      && (MissingMessageField(senderId, cid, body) ==> r == MissingField)
      && (!MissingMessageField(senderId, cid, body) && senderId.value !in store.users ==> r == SenderNotFound)
      && ((!MissingMessageField(senderId, cid, body) && senderId.value in store.users
           && cid.value !in store.conversations) ==> r == ConversationNotFound)
      && ((!MissingMessageField(senderId, cid, body) && senderId.value in store.users && cid.value in store.conversations
           && senderId.value !in store.conversations[cid.value].participants) ==> r == NotParticipant)
      && (r.Created? <==>
          && !MissingMessageField(senderId, cid, body) && senderId.value in store.users && cid.value in store.conversations
          && senderId.value in store.conversations[cid.value].participants)
      && (r.Created? ==>
          && r.id !in old(store.messages)
          && store.messages == old(store.messages)[r.id :=
               Message(senderId.value, cid.value, body.value, messageType.GetOr(DefaultMessageType), false, now)])
    ensures !r.Created? ==> store.messages == old(store.messages)
  {
    var conversationId := Target(route, fromBody);
    if MissingMessageField(senderId, conversationId, body) {
      return MissingField;
    }
    if senderId.value !in store.users {
      return SenderNotFound;
    }
    if conversationId.value !in store.conversations {
      return ConversationNotFound;
    }
    if senderId.value !in store.conversations[conversationId.value].participants {
      return NotParticipant;
    }
    var id := store.NewId();
    var kind := messageType.GetOr(DefaultMessageType);
    store.messages := store.messages[id := Message(senderId.value, conversationId.value, body.value, kind, false, now)];
    r := Created(id);
  }

  /** `MessageViewSet.mark_read`: a user cannot mark a message they sent. */
  method MarkRead(store: ChatStore, messageId: Id, userId: Option<Id>) returns (r: Response)
    requires store.Valid()
    modifies store`messages
    ensures store.Valid()
    ensures messageId !in old(store.messages) ==> r == MessageNotFound
    ensures messageId in old(store.messages) && userId.None? ==> r == MissingField
    ensures messageId in old(store.messages) && userId.Some? && old(store.messages)[messageId].sender == userId.value ==> r == OwnMessage
    ensures r == Done <==> messageId in old(store.messages) && userId.Some? && old(store.messages)[messageId].sender != userId.value
    ensures r == Done ==> store.messages == old(store.messages)[messageId := old(store.messages)[messageId].(isRead := true)]
    ensures r != Done ==> store.messages == old(store.messages)
  {
    if messageId !in store.messages {
      return MessageNotFound;
    }
    if userId.None? {
      return MissingField;
    }
    var m := store.messages[messageId];
    if m.sender == userId.value {
      return OwnMessage;
    }
    store.messages := store.messages[messageId := m.(isRead := true)];
    r := Done;
  }

  /** Ordered by `-sent_at`: every listed message is a message, and none is
      newer than one listed before it. */
  predicate NewestFirst(messages: map<Id, Message>, s: seq<Id>) {
    && (forall i :: 0 <= i < |s| ==> s[i] in messages)
    && (forall i, j :: 0 <= i < j < |s| ==> messages[s[i]].sentAt >= messages[s[j]].sentAt)
  }

  /** Inserts `id` into a newest-first listing, after every message at least
      as new and before the first older one. */
  method InsertNewestFirst(messages: map<Id, Message>, s: seq<Id>, id: Id) returns (r: seq<Id>)
    requires id in messages && id !in s
    requires NewestFirst(messages, s) && NoDup(s)
    ensures NewestFirst(messages, r) && NoDup(r)
    ensures Elems(r) == Elems(s) + {id}
  {
    var t := messages[id].sentAt;
    var i := 0;
    while i < |s| && messages[s[i]].sentAt >= t
      invariant 0 <= i <= |s|
      invariant forall k :: 0 <= k < i ==> messages[s[k]].sentAt >= t
    {
      i := i + 1;
    }
    r := s[..i] + [id] + s[i..];
    InsertedInOrder(messages, s, id, i);
  }

  /** Position `k` of `s` with `id` spliced in at position `i`. */
  lemma SplicedAt(s: seq<Id>, id: Id, i: nat, k: nat)
    requires i <= |s| && k <= |s|
    ensures var r := s[..i] + [id] + s[i..];
      |r| == |s| + 1 && r[k] == (if k < i then s[k] else if k == i then id else s[k - 1])
  {
  }

  /** Splicing `id` in at position `i` keeps a listing newest first and free
      of repeats when everything before `i` is at least as new as `id` and
      everything from `i` on is older. */
  lemma InsertedInOrder(messages: map<Id, Message>, s: seq<Id>, id: Id, i: nat)
    requires id in messages && id !in s && i <= |s|
    requires NewestFirst(messages, s) && NoDup(s)
    requires forall k :: 0 <= k < i ==> messages[s[k]].sentAt >= messages[id].sentAt
    requires i < |s| ==> messages[s[i]].sentAt < messages[id].sentAt
    ensures var r := s[..i] + [id] + s[i..];
      NewestFirst(messages, r) && NoDup(r) && Elems(r) == Elems(s) + {id}
  {
    var r := s[..i] + [id] + s[i..];
    forall a | 0 <= a < |r| ensures r[a] in messages {
      SplicedAt(s, id, i, a);
    }
    forall a, b | 0 <= a < b < |r|
      ensures messages[r[a]].sentAt >= messages[r[b]].sentAt && r[a] != r[b]
    {
      SplicedAt(s, id, i, a);
      SplicedAt(s, id, i, b);
      if a == i && b > i {
        assert messages[s[b - 1]].sentAt <= messages[s[i]].sentAt;
      }
    }
    forall x | x in Elems(r) ensures x in Elems(s) + {id} {
      var k :| 0 <= k < |r| && r[k] == x;
      SplicedAt(s, id, i, k);
    }
    forall x | x in Elems(s) + {id} ensures x in Elems(r) {
      if x == id {
        SplicedAt(s, id, i, i);
      } else {
        var k :| 0 <= k < |s| && s[k] == x;
        if k < i { SplicedAt(s, id, i, k); } else { SplicedAt(s, id, i, k + 1); }
      }
    }
  }

  /** `MessageViewSet.unread`: for a known user, exactly the messages the
      filter selects, each once, newest first, with their count. */
  method Unread(store: ChatStore, userId: Option<Id>) returns (r: Response)
    requires store.Valid()
    ensures userId.None? ==> r == MissingField
    ensures userId.Some? && userId.value !in store.users ==> r == UserNotFound
    ensures userId.Some? && userId.value in store.users ==>
      && r.UnreadMessages?
      && Elems(r.messages) == store.UnreadFor(userId.value)
      && NoDup(r.messages)
      && NewestFirst(store.messages, r.messages)
      && r.count == |r.messages| == |store.UnreadFor(userId.value)|
  {
    if userId.None? {
      return MissingField;
    }
    var u := userId.value;
    if u !in store.users {
      return UserNotFound;
    }
    var listing: seq<Id> := [];
    var rest := store.messages.Keys;
    while rest != {}
      invariant rest <= store.messages.Keys
      invariant NewestFirst(store.messages, listing) && NoDup(listing)
      invariant Elems(listing) == set m | m in store.messages.Keys - rest && store.UnreadBy(m, u)
      decreases |rest|
    {
      var m :| m in rest;
      assert m !in Elems(listing);
      if store.UnreadBy(m, u) {
        listing := InsertNewestFirst(store.messages, listing, m);
      }
      rest := rest - {m};
    }
    assert store.messages.Keys - rest == store.messages.Keys;
    ElemsCard(listing);
    r := UnreadMessages(listing, |listing|);
  }
}
