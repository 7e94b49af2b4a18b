/** The serializers of the REST chat application: derived read-only fields
    (full name, previews, last-message summary, unread count), the validators
    (password confirmation, participant ids) and the create/update steps that
    write to the store. */
module ChatSerializers {
  import opened Collections
  import opened Text
  import opened ChatModels

  /** `UserSerializer.get_full_name`: first name, one space, last name. */
  function FullName(u: User): (r: string)
    ensures |r| == |u.firstName| + 1 + |u.lastName|
    ensures r[..|u.firstName|] == u.firstName
    ensures r[|u.firstName|] == ' '
    ensures r[|u.firstName| + 1..] == u.lastName
  {
    u.firstName + " " + u.lastName
  }

  /** HTTP method of the request in the serializer's context. */
  datatype HttpMethod = Get | Post | Put | Patch | Delete

  /** The writable attributes a user serializer validates. */
  datatype UserAttrs = UserAttrs(
    username: string,
    firstName: string,
    lastName: string,
    email: string,
    password: Option<string>,
    passwordConfirm: Option<string>)

  const PasswordMismatch := "Passwords don't match."

  /** `UserSerializer.validate`: only a POST request compares the password
      with its confirmation (an absent value compares as `None`); otherwise
      the attributes pass unchanged. `request` is `None` when the context
      holds no request. */
  function Validate(attrs: UserAttrs, request: Option<HttpMethod>): (r: Result<UserAttrs, string>)
    ensures r.Err? <==> request == Some(Post) && attrs.password != attrs.passwordConfirm
    ensures r.Err? ==> r.error == PasswordMismatch
    ensures r.Ok? ==> r.value == attrs
  {
    if request.Some? && request.value == Post && attrs.password != attrs.passwordConfirm then
      Err(PasswordMismatch)
    else
      Ok(attrs)
  }

  /** `UserSerializer.create`: the confirmation is dropped, the user row is
      created, and a password is set only when a non-empty one was given. */
  method CreateUser(store: ChatStore, attrs: UserAttrs) returns (id: Id)
    requires store.Valid()
    modifies store`users, store`nextId
    ensures store.Valid()
    ensures id !in old(store.users)
    ensures store.users == old(store.users)[id := User(attrs.username, attrs.firstName, attrs.lastName, attrs.email,
                                                       if attrs.password.Some? && attrs.password.value != "" then attrs.password else None)]
  {
    id := store.NewId();
    store.users := store.users[id := User(attrs.username, attrs.firstName, attrs.lastName, attrs.email, None)];
    if attrs.password.Some? && attrs.password.value != "" {
      store.users := store.users[id := store.users[id].(password := attrs.password)];
    }
  }

  /** `MessageSerializer.get_preview`. */
  function MessagePreview(m: Message): (r: string)
    ensures Min(PreviewLimit, |m.body|) <= |r| <= PreviewLimit + |Ellipsis|
    ensures |m.body| <= PreviewLimit ==> r == m.body
    ensures |m.body| > PreviewLimit ==> r == m.body[..PreviewLimit] + Ellipsis
    ensures r[..Min(PreviewLimit, |m.body|)] == Truncate(m.body, PreviewLimit)
  {
    Preview(m.body)
  }

  /** The dictionary `get_last_message` builds. */
  datatype LastMessageSummary = LastMessageSummary(
    messageId: Id,
    sender: string,
    preview: string,
    sentAt: int,
    messageType: string)

  /** `ConversationSerializer.get_last_message`: `None` for a conversation
      without messages, else the summary of the last one (which message is
      last is the ORM's default ordering, left to the caller). */
  function LastMessage(store: ChatStore, last: Option<Id>): (r: Option<LastMessageSummary>)
    reads store
    requires store.Valid()
    requires last.Some? ==> last.value in store.messages
    ensures r.Some? <==> last.Some?
    ensures r.Some? ==>
      var m := store.messages[last.value];
      && r.value.messageId == last.value
      && r.value.sender == FullName(store.users[m.sender])
      && r.value.preview == MessagePreview(m)
      && r.value.sentAt == m.sentAt && r.value.messageType == m.messageType
  {
    if last.None? then None
    else
      var m := store.messages[last.value];
      Some(LastMessageSummary(last.value, FullName(store.users[m.sender]), Preview(m.body), m.sentAt, m.messageType))
  }

  /** `ConversationSerializer.get_unread_count`: without an authenticated
      requester 0, otherwise the unread messages of the conversation that the
      requester did not send. */
  function UnreadCount(store: ChatStore, conversation: Id, requester: Option<Id>): (n: nat)
    reads store
    ensures requester.None? ==> n == 0
    ensures requester.Some? ==>
      n == |set m | m in store.messages && store.messages[m].conversation == conversation
                    && !store.messages[m].isRead && store.messages[m].sender != requester.value|
  {
    if requester.None? then 0
    else |set m | m in store.messages && store.messages[m].conversation == conversation
                  && !store.messages[m].isRead && store.messages[m].sender != requester.value|
  }

  /** For a participant, the conversation's unread count is the number of
      messages of that conversation in the `unread` listing. */
  lemma UnreadCountAgreesWithListing(store: ChatStore, conversation: Id, u: Id)
    requires store.Valid()
    requires conversation in store.conversations && u in store.conversations[conversation].participants
    ensures UnreadCount(store, conversation, Some(u))
         == |set m | m in store.UnreadFor(u) && store.messages[m].conversation == conversation|
  {
    assert (set m | m in store.UnreadFor(u) && store.messages[m].conversation == conversation)
        == (set m | m in store.messages && store.messages[m].conversation == conversation
                    && !store.messages[m].isRead && store.messages[m].sender != u);
  }

  /** `ConversationSerializer.validate_participant_ids`: duplicates are
      removed, and the ids pass only when all exist; otherwise the error names
      exactly the ids that do not exist. The returned list's order is
      unspecified, so it is modelled as a set. */
  function ValidateParticipantIds(value: seq<Id>, known: set<Id>): (r: Result<set<Id>, set<Id>>)
    ensures r.Ok? <==> Elems(value) <= known
    ensures r.Ok? ==> r.value == Elems(value)
    ensures r.Err? ==> r.error == Elems(value) - known && r.error != {}
  {
    var unique := Elems(value);
    var existing := unique * known;
    SubsetCard(unique, known);
    assert unique - existing == unique - known;
    if |existing| != |unique| then Err(unique - existing) else Ok(unique)
  }

  /** Unlike the serializer's validator, the create action of the view set
      does not remove duplicates: any list the view accepts passes the
      validator with the same participants, but a list that repeats a known
      id passes the validator and is rejected by the view. */
  lemma {:induction false} ViewCheckStricterThanValidator(ids: seq<Id>, known: set<Id>)
    ensures |Elems(ids) * known| == |ids| ==> ValidateParticipantIds(ids, known) == Ok(Elems(ids))
    ensures |ids| == 2 && ids[0] == ids[1] && ids[0] in known ==>
              ValidateParticipantIds(ids, known).Ok? && |Elems(ids) * known| != |ids|
  {
    ExistingCountMatches(ids, known);
    if |ids| == 2 && ids[0] == ids[1] && ids[0] in known {
      assert Elems(ids) == {ids[0]};
    }
  }

  /** `ConversationSerializer.create`: the conversation row first, then, only
      for a non-empty id list, the participants that exist. */
  method InsertConversation(store: ChatStore, title: string, isActive: bool, participantIds: seq<Id>) returns (id: Id)
    requires store.Valid()
    modifies store`conversations, store`nextId
    ensures store.Valid()
    ensures id !in old(store.conversations)
    ensures store.conversations == old(store.conversations)[id := Conversation(title, isActive, Elems(participantIds) * store.users.Keys)]
  {
    id := store.NewId();
    store.conversations := store.conversations[id := Conversation(title, isActive, {})];
    if participantIds != [] {
      var participants := Elems(participantIds) * store.users.Keys;
      store.conversations := store.conversations[id := store.conversations[id].(participants := participants)];
    } else {
      assert Elems(participantIds) * store.users.Keys == {};
    }
  }

  /** One `setattr(instance, attr, value)` of `update`. */
  datatype Assignment = SetTitle(title: string) | SetActive(active: bool)

  /** Which attribute an assignment names. */
  function AttributeOf(a: Assignment): string {
    match a
    case SetTitle(_) => "title"
    case SetActive(_) => "is_active"
  }

  /** Validated data is a dictionary: each attribute appears at most once. */
  predicate DistinctAttributes(data: seq<Assignment>) {
    forall i, j :: 0 <= i < j < |data| ==> AttributeOf(data[i]) != AttributeOf(data[j])
  }

  function Assign(c: Conversation, a: Assignment): Conversation {
    match a
    case SetTitle(t) => c.(title := t)
    case SetActive(b) => c.(isActive := b)
  }

  /** The conversation after the assignments of `data`, in order. */
  function AssignAll(c: Conversation, data: seq<Assignment>): Conversation
    decreases |data|
  {
    if data == [] then c else Assign(AssignAll(c, data[..|data| - 1]), data[|data| - 1])
  }

  /** The attribute named by `a` holds the value `a` assigns. */
  predicate Holds(c: Conversation, a: Assignment) {
    match a
    case SetTitle(t) => c.title == t
    case SetActive(b) => c.isActive == b
  }

  /** After the assignments of a dictionary, every supplied attribute has its
      supplied value, every attribute not supplied is unchanged, and the
      participants are never touched. */
  lemma {:induction false} AssignAllEffect(c: Conversation, data: seq<Assignment>)
    requires DistinctAttributes(data)
    ensures AssignAll(c, data).participants == c.participants
    ensures forall i :: 0 <= i < |data| ==> Holds(AssignAll(c, data), data[i])
    ensures (forall i :: 0 <= i < |data| ==> !data[i].SetTitle?) ==> AssignAll(c, data).title == c.title
    ensures (forall i :: 0 <= i < |data| ==> !data[i].SetActive?) ==> AssignAll(c, data).isActive == c.isActive
  {
    if data != [] {
      var n := |data| - 1;
      var init := data[..n];
      assert DistinctAttributes(init) by {
        forall i, j | 0 <= i < j < |init| ensures AttributeOf(init[i]) != AttributeOf(init[j]) {
          assert init[i] == data[i] && init[j] == data[j];
        }
      }
      AssignAllEffect(c, init);
      forall i | 0 <= i < |data| ensures Holds(AssignAll(c, data), data[i]) {
        if i < n {
          assert init[i] == data[i];
          assert AttributeOf(data[i]) != AttributeOf(data[n]);
        }
      }
      assert forall i :: 0 <= i < |init| ==> init[i] == data[i];
    }
  }

  /** `ConversationSerializer.update`: sets every supplied attribute, saves,
      and replaces the participants (by the existing users among the ids) only
      when `participant_ids` was supplied. */
  method UpdateConversation(store: ChatStore, id: Id, data: seq<Assignment>, participantIds: Option<seq<Id>>)
    requires store.Valid()
    requires id in store.conversations && DistinctAttributes(data)
    modifies store`conversations
    ensures store.Valid()
    ensures store.conversations.Keys == old(store.conversations).Keys
    ensures forall c :: c in store.conversations && c != id ==> store.conversations[c] == old(store.conversations)[c]
    ensures var updated := AssignAll(old(store.conversations)[id], data);
      store.conversations[id] ==
        if participantIds.Some? then updated.(participants := Elems(participantIds.value) * store.users.Keys)
        else updated
    ensures forall i :: 0 <= i < |data| ==> Holds(store.conversations[id], data[i])
    ensures participantIds.None? ==> store.conversations[id].participants == old(store.conversations)[id].participants
  {
    var original := store.conversations[id];
    var c := original;
    var i := 0;
    while i < |data|
      invariant 0 <= i <= |data|
      invariant c == AssignAll(original, data[..i])
    {
      assert data[..i + 1][..i] == data[..i];
      c := Assign(c, data[i]);
      i := i + 1;
    }
    assert data[..i] == data;
    AssignAllEffect(original, data);
    store.conversations := store.conversations[id := c];
    if participantIds.Some? {
      var participants := Elems(participantIds.value) * store.users.Keys;
      store.conversations := store.conversations[id := c.(participants := participants)];
    }
  }
}
