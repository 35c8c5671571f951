/** What the two copies of the chats serializers share: the validation of
    an incoming message (identical in both copies) and the conversation
    whose participant set the conversation serializers replace. */
module ChatSerializers {
  import opened Wrappers
  import Text

  type UserId = nat

  /** Why a serializer refuses its input. */
  datatype ValidationError =
    | BlankMessageBody     // {"message_body": "Message body cannot be blank."}
    | SenderNotParticipant // "Sender must be a participant of the conversation."
    | TooFewParticipants   // {"participants": "A conversation must have at least 2 participants."}

  /** The authenticated-ness and primary key of `request.user`. */
  datatype RequestUser = RequestUser(isAuthenticated: bool, pk: UserId)

  /** The validated fields of an incoming message: its body, if given, and
      the participants of the conversation it names, if it names one. */
  datatype MessageAttrs = MessageAttrs(body: Option<string>, conversation: Option<set<UserId>>)

  /** `MessageSerializer.validate(attrs)` with the serializer's request in
      context (`None` when there is none). The body check comes first; the
      participant check applies only when there is a request whose user is
      authenticated and the message names a conversation. */
  function ValidateMessage(attrs: MessageAttrs, request: Option<RequestUser>): (r: Result<MessageAttrs, ValidationError>)
    ensures r.Ok? ==> r.value == attrs
    ensures r == Err(BlankMessageBody) <==> attrs.body.Some? && Text.AllSpace(attrs.body.value)
    ensures r == Err(SenderNotParticipant) <==>
      && !(attrs.body.Some? && Text.AllSpace(attrs.body.value))
      && request.Some? && request.value.isAuthenticated
      && attrs.conversation.Some? && request.value.pk !in attrs.conversation.value
    ensures r.Err? ==> r.error != TooFewParticipants
  {
    var blank := attrs.body.Some? && Text.Strip(attrs.body.value) == [];
    assert blank <==> attrs.body.Some? && Text.AllSpace(attrs.body.value) by {
      if attrs.body.Some? {
        Text.StripEmptyIffBlank(attrs.body.value);
      }
    }
    if blank then Err(BlankMessageBody)
    else if request.Some? && request.value.isAuthenticated && attrs.conversation.Some?
            && request.value.pk !in attrs.conversation.value then
      Err(SenderNotParticipant)
    else Ok(attrs)
  }

  /** Input without a body skips the blank check: only the participant
      check can refuse it. */
  lemma AbsentBodySkipsBlankCheck(attrs: MessageAttrs, request: Option<RequestUser>)
    requires attrs.body.None?
    ensures ValidateMessage(attrs, request) != Err(BlankMessageBody)
  {
  }

  /** With no request, an anonymous user or no conversation, the sender is
      not checked: a non-blank message is accepted unchanged. */
  lemma ParticipantCheckSkipped(attrs: MessageAttrs, request: Option<RequestUser>)
    requires request.None? || !request.value.isAuthenticated || attrs.conversation.None?
    requires !(attrs.body.Some? && Text.AllSpace(attrs.body.value))
    ensures ValidateMessage(attrs, request) == Ok(attrs)
  {
  }

  /** A conversation; `participants` is its many-to-many user set. */
  class Conversation {
    var participants: set<UserId>

    /** `Conversation.objects.create()`: no participants yet. */
    constructor ()
      ensures participants == {}
    {
      participants := {};
    }

    /** `participants.set(users)`: the set becomes exactly the given users. */
    method SetParticipants(users: seq<UserId>)
      modifies this
      ensures participants == set u | u in users
    {
      participants := set u | u in users;
    }
  }

  /** The validated data of a conversation write: the participant list,
      if one was supplied. */
  datatype ConversationData = ConversationData(participants: Option<seq<UserId>>)

  /** `update(instance, validated_data)`, the same in both copies: the
      participants are replaced by exactly the supplied users when a list
      is supplied, and left as they are otherwise. */
  method UpdateConversation(instance: Conversation, data: ConversationData) returns (updated: Conversation)
    modifies instance
    ensures updated == instance
    ensures data.participants.Some? ==> instance.participants == set u | u in data.participants.value
    ensures data.participants.None? ==> instance.participants == old(instance.participants)
  {
    if data.participants.Some? {
      instance.SetParticipants(data.participants.value);
    }
    updated := instance;
  }
}

/** `ConversationSerializer` of the messaging app: any supplied participant
    list, empty included, must name at least two users. */
module ConversationSerializer {
  import opened Wrappers
  import opened ChatSerializers

  /** `validate(attrs)`. */
  function Validate(attrs: ConversationData): (r: Result<ConversationData, ValidationError>)
    ensures r.Ok? ==> r.value == attrs
    ensures r.Err? ==> r.error == TooFewParticipants
    ensures r.Err? <==> attrs.participants.Some? && |attrs.participants.value| < 2
  {
    if attrs.participants.Some? && |attrs.participants.value| < 2 then Err(TooFewParticipants)
    else Ok(attrs)
  }

  /** The participants `create` leaves on the new conversation: the list is
      applied only when it is non-empty. */
  function CreatedParticipants(data: ConversationData): set<UserId>
  {
    if data.participants.Some? && data.participants.value != [] then set u | u in data.participants.value
    else {}
  }

  /** `create(validated_data)`. */
  method Create(data: ConversationData) returns (conv: Conversation)
    ensures fresh(conv)
    ensures conv.participants == CreatedParticipants(data)
  {
    conv := new Conversation();
    var participants := if data.participants.Some? then data.participants.value else [];
    if participants != [] {
      conv.SetParticipants(participants);
    }
  }
}

/** `ConversationWriteSerializer` of the middleware project's copy: a
    participant list is refused only when it is non-empty and shorter than
    two, so an empty list passes. */
module ConversationWriteSerializer {
  import opened Wrappers
  import opened ChatSerializers
  import ConversationSerializer

  /** `validate(attrs)`: the list is tested for truthiness first. */
  function Validate(attrs: ConversationData): (r: Result<ConversationData, ValidationError>)
    ensures r.Ok? ==> r.value == attrs
    ensures r.Err? ==> r.error == TooFewParticipants
    ensures r.Err? <==> attrs.participants.Some? && |attrs.participants.value| == 1
  {
    if attrs.participants.Some? && attrs.participants.value != [] && |attrs.participants.value| < 2 then
      Err(TooFewParticipants)
    else Ok(attrs)
  }

  /** The participants `create` leaves on the new conversation: the list,
      possibly empty, is always applied. */
  function CreatedParticipants(data: ConversationData): set<UserId>
  {
    if data.participants.Some? then set u | u in data.participants.value else {}
  }

  /** `create(validated_data)`. */
  method Create(data: ConversationData) returns (conv: Conversation)
    ensures fresh(conv)
    ensures conv.participants == CreatedParticipants(data)
  {
    conv := new Conversation();
    var participants := if data.participants.Some? then data.participants.value else [];
    conv.SetParticipants(participants);
  }

  /** The two validators part ways on exactly one input: the empty list,
      which the messaging app refuses and this copy accepts. Whatever this
      copy refuses, the messaging app refuses too. */
  lemma ValidatorsDifferOnlyOnEmptyList(attrs: ConversationData)
    ensures Validate(attrs).Err? ==> ConversationSerializer.Validate(attrs).Err?
    ensures ConversationSerializer.Validate(attrs).Err? && Validate(attrs).Ok?
            <==> attrs.participants == Some([])
  {
  }

  /** Applying an empty list and skipping it agree, so both copies'
      `create` leave the same participants. */
  lemma CreatesAgree(data: ConversationData)
    ensures CreatedParticipants(data) == ConversationSerializer.CreatedParticipants(data)
  {
  }
}
