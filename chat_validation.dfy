/** Request schemas of the chat service: session creation, sending a
    message and listing with a page size. */
module ChatValidation {
  import opened Wrappers

  datatype CreateSessionInput = CreateSessionInput(subject: string, className: string, folderId: Option<string>)

  /** `createSessionSchema`: subject and className non-empty; folderId optional. */
  predicate CreateSessionSchemaOk(i: CreateSessionInput) {
    |i.subject| >= 1 && |i.className| >= 1
  }

  datatype SendMessageInput = SendMessageInput(chatId: string, content: string, folderId: Option<string>)

  const MAX_MESSAGE := 4000

  /** `sendMessageSchema`: chatId non-empty, content of 1 to 4000 characters. */
  predicate SendMessageSchemaOk(i: SendMessageInput) {
    |i.chatId| >= 1 && 1 <= |i.content| <= MAX_MESSAGE
  }

  /** The literal "new" is an ordinary non-empty chat id to the schema. */
  lemma NewChatIdAccepted(content: string, folderId: Option<string>)
    ensures SendMessageSchemaOk(SendMessageInput("new", content, folderId)) <==> 1 <= |content| <= 4000
  {
  }

  datatype PaginationInput = PaginationInput(limit: Option<int>, cursor: Option<string>)
  datatype Pagination = Pagination(limit: int, cursor: Option<string>)

  const DEFAULT_PAGE_SIZE := 20

  /** `paginationSchema.safeParse`: a given limit must lie in 1..50; a
      missing one becomes 20. */
  function ParsePagination(i: PaginationInput): (r: Option<Pagination>)
    ensures r.Some? <==> (i.limit.None? || 1 <= i.limit.value <= 50)
    ensures r.Some? ==> 1 <= r.value.limit <= 50 && r.value.cursor == i.cursor
    ensures r.Some? && i.limit.Some? ==> r.value.limit == i.limit.value
    ensures i.limit.None? ==> r == Some(Pagination(DEFAULT_PAGE_SIZE, i.cursor))
  {
    match i.limit
    case None => Some(Pagination(DEFAULT_PAGE_SIZE, i.cursor))
    case Some(n) => if 1 <= n <= 50 then Some(Pagination(n, i.cursor)) else None
  }
}
