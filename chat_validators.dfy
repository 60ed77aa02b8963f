/** The second set of chat schemas, used by the chat actions: a tighter
    message length and a session schema without a folder. */
module ChatValidators {
  import opened Wrappers
  import ChatValidation

  datatype CreateMessageInput = CreateMessageInput(content: string, chatId: string, folderId: Option<string>)

  const MAX_MESSAGE := 2000

  /** `createMessageSchema`: content of 1 to 2000 characters, chatId non-empty. */
  predicate CreateMessageSchemaOk(i: CreateMessageInput) {
    1 <= |i.content| <= MAX_MESSAGE && |i.chatId| >= 1
  }

  datatype CreateSessionInput = CreateSessionInput(subject: string, className: string)

  /** `createSessionSchema`: subject and className non-empty, no folder field. */
  predicate CreateSessionSchemaOk(i: CreateSessionInput) {
    |i.subject| >= 1 && |i.className| >= 1
  }

  function AsSendMessage(i: CreateMessageInput): ChatValidation.SendMessageInput {
    ChatValidation.SendMessageInput(i.chatId, i.content, i.folderId)
  }

  /** Every message this schema accepts the service schema accepts too. */
  lemma CreateMessageImpliesSendMessage(i: CreateMessageInput)
    ensures CreateMessageSchemaOk(i) ==> ChatValidation.SendMessageSchemaOk(AsSendMessage(i))
  {
  }

  /** ... but not conversely: 2001 characters pass only the service schema. */
  lemma SendMessageNotImpliesCreateMessage()
    ensures var i := CreateMessageInput(seq(2001, _ => 'a'), "c", None);
            ChatValidation.SendMessageSchemaOk(AsSendMessage(i)) && !CreateMessageSchemaOk(i)
  {
  }

  /** The two schemas differ only in the content bound: the chat id rule is
      the same, and the content rules agree up to 2000 characters. */
  lemma SchemasDifferOnlyInContentBound(i: CreateMessageInput)
    requires |i.content| <= 2000
    ensures CreateMessageSchemaOk(i) <==> ChatValidation.SendMessageSchemaOk(AsSendMessage(i))
  {
  }

  /** Both session schemas demand the same two non-empty names. */
  lemma SessionSchemasAgree(subject: string, className: string, folderId: Option<string>)
    ensures CreateSessionSchemaOk(CreateSessionInput(subject, className))
        <==> ChatValidation.CreateSessionSchemaOk(ChatValidation.CreateSessionInput(subject, className, folderId))
  {
  }
}
