/** The records of the REST chat application and the in-memory store that
    stands for its database: users, conversations (with their participant
    set) and messages, each table a map from id to record. The application's
    own model definitions are not part of this model, so each record carries
    exactly the fields the views and serializers touch. */
module ChatModels {
  import opened Collections

  /** Primary keys. UUID generation is replaced by a counter in the store. */
  type Id = nat

  /** Default of a new conversation's `is_active` flag (assumed: the model
      declaring it is not part of this model). */
  const ActiveByDefault := true

  /** A user account. `password` stands for the stored password hash: `None`
      is an unusable password. */
  datatype User = User(
    username: string,
    firstName: string,
    lastName: string,
    email: string,
    password: Option<string>)

  datatype Conversation = Conversation(title: string, isActive: bool, participants: set<Id>)
  {
    /** `participants.add(user)` */
    function WithParticipant(u: Id): Conversation {
      this.(participants := participants + {u})
    }

    /** `participants.remove(user)` */
    function WithoutParticipant(u: Id): Conversation {
      this.(participants := participants - {u})
    }
  }

  datatype Message = Message(
    sender: Id,
    conversation: Id,
    body: string,
    messageType: string,
    isRead: bool,
    sentAt: int)

  class ChatStore {
    var users: map<Id, User>
    var conversations: map<Id, Conversation>
    var messages: map<Id, Message>
    /** Every id handed out so far is below this counter. */
    var nextId: nat

    /** Referential integrity: participants are users, and every message has
        an existing sender and conversation. */
    ghost predicate Valid()
      reads this
    {
      && (forall id :: id in users ==> id < nextId)
      && (forall id :: id in conversations ==> id < nextId)
      && (forall id :: id in messages ==> id < nextId)
      && (forall c :: c in conversations ==> conversations[c].participants <= users.Keys)
      && (forall m :: m in messages ==> messages[m].sender in users && messages[m].conversation in conversations)
    }

    constructor ()
      ensures Valid()
      ensures users == map[] && conversations == map[] && messages == map[]
    {
      users, conversations, messages := map[], map[], map[];
      nextId := 0;
    }

    /** A fresh primary key, unused in every table. */
    method NewId() returns (id: Id)
      requires Valid()
      modifies this`nextId
      ensures Valid()
      ensures id !in users && id !in conversations && id !in messages
      ensures id < nextId
    {
      id := nextId;
      nextId := nextId + 1;
    }

    /** The filter of the `unread` action for user `u`: the message belongs to
        a conversation `u` participates in, is unread, and was not sent by `u`. */
    predicate UnreadBy(m: Id, u: Id)
      reads this
      requires m in messages
    {
      var msg := messages[m];
      && msg.conversation in conversations
      && u in conversations[msg.conversation].participants
      && !msg.isRead
      && msg.sender != u
    }

    /** All messages that `UnreadBy` selects for `u`. */
    function UnreadFor(u: Id): set<Id>
      reads this
    {
      set m | m in messages && UnreadBy(m, u)
    }
  }

  /** Adding a participant puts that user in the set and keeps everybody else;
      adding the same user again changes nothing. */
  lemma AddParticipantFacts(c: Conversation, u: Id)
    ensures u in c.WithParticipant(u).participants
    ensures c.WithParticipant(u).participants - {u} == c.participants - {u}
    ensures c.WithParticipant(u).WithParticipant(u) == c.WithParticipant(u)
    ensures u in c.participants ==> c.WithParticipant(u) == c
    ensures c.WithParticipant(u).title == c.title && c.WithParticipant(u).isActive == c.isActive
  {
  }

  /** Removing a participant takes exactly that user out, and from a
      conversation of at least two participants leaves at least one. */
  lemma RemoveParticipantFacts(c: Conversation, u: Id)
    ensures u !in c.WithoutParticipant(u).participants
    ensures c.WithoutParticipant(u).participants + {u} >= c.participants
    ensures c.WithoutParticipant(u).participants <= c.participants
    ensures |c.participants| > 1 ==> |c.WithoutParticipant(u).participants| >= 1
  {
    if |c.participants| > 1 {
      var p := c.participants;
      if u in p {
        assert |p - {u}| == |p| - 1;
      } else {
        assert p - {u} == p;
      }
    }
  }
}
