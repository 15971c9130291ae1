/** Contract drafts and their chat (backend/src/contracts/contracts.service.ts):
    creating a draft for a contract type, loading a draft its owner may
    see, and appending a chat message to it.  Generated keys are inputs. */
module Contracts {
  import opened Strings
  import opened Store

  const UserNotFoundMessage := "User not found"
  const TypeNotFoundMessage := "Contract type not found"
  const DraftNotFoundMessage := "Contract draft not found"
  const NotYourDraftMessage := "Not your draft"

  /** `CreateContractDraftDto`. */
  datatype CreateDraftRequest = CreateDraftRequest(contractTypeId: Option<string>, contractTypeSlug: Option<string>,
                                                   title: Option<string>, jurisdiction: Option<string>)

  /** The contract type a request names: by id when an id is given, else
      by slug when a slug is given, else none.  A slug never overrides an
      id, even one that matches nothing. */
  function ResolveType(types: seq<ContractType>, dto: CreateDraftRequest): (r: Option<ContractType>)
    ensures Present(dto.contractTypeId) ==>
      && (r.Some? <==> exists i :: 0 <= i < |types| && types[i].id == dto.contractTypeId.value)
      && (r.Some? ==> r.value in types && r.value.id == dto.contractTypeId.value)
    ensures !Present(dto.contractTypeId) && Present(dto.contractTypeSlug) ==>
      && (r.Some? <==> exists i :: 0 <= i < |types| && types[i].slug == dto.contractTypeSlug.value)
      && (r.Some? ==> r.value in types && r.value.slug == dto.contractTypeSlug.value)
    ensures !Present(dto.contractTypeId) && !Present(dto.contractTypeSlug) ==> r.None?
  {
    if Present(dto.contractTypeId) then
      var k := Find(types, (t: ContractType) => t.id == dto.contractTypeId.value);
      if k.Some? then Some(types[k.value]) else None
    else if Present(dto.contractTypeSlug) then
      var k := Find(types, (t: ContractType) => t.slug == dto.contractTypeSlug.value);
      if k.Some? then Some(types[k.value]) else None
    else None
  }

  /** `company_name ?? full_name ?? email`: a present column wins even when
      it is the empty string. */
  function OwnerName(u: User): (r: string)
    ensures u.companyName.Some? ==> r == u.companyName.value
    ensures u.companyName.None? && u.fullName.Some? ==> r == u.fullName.value
    ensures u.companyName.None? && u.fullName.None? ==> r == u.email
  {
    match Coalesce(u.companyName, u.fullName)
    case Some(name) => name
    case None => u.email
  }

  /** A non-empty requested title, else "<type> – Draft for <owner>". */
  function DraftTitle(dto: CreateDraftRequest, t: ContractType, u: User): (r: string)
    ensures Present(dto.title) ==> r == dto.title.value
    ensures !Present(dto.title) ==> r == t.name + " – Draft for " + OwnerName(u)
  {
    if Present(dto.title) then dto.title.value else t.name + " – Draft for " + OwnerName(u)
  }

  /** A non-empty requested jurisdiction, else the type's default. */
  function DraftJurisdiction(dto: CreateDraftRequest, t: ContractType): (r: string)
    ensures Present(dto.jurisdiction) ==> r == dto.jurisdiction.value
    ensures !Present(dto.jurisdiction) ==> r == t.jurisdictionDefault
  {
    if Present(dto.jurisdiction) then dto.jurisdiction.value else t.jurisdictionDefault
  }

  /** A title is never empty: the default always carries the separator. */
  lemma DraftTitleNonEmpty(dto: CreateDraftRequest, t: ContractType, u: User)
    ensures DraftTitle(dto, t, u) != []
  {
    if !Present(dto.title) {
      assert |DraftTitle(dto, t, u)| >= |" – Draft for "|;
    }
  }

  /** The draft `createDraft` saves. */
  function NewDraft(id: string, u: User, t: ContractType, dto: CreateDraftRequest): (d: Draft)
    ensures d.userId == u.id && d.contractTypeId == t.id
    ensures d.status == InProgress && d.version == 1
    ensures d.questionnaireState == map[] && d.aiInputs == map[]
    ensures d.title == DraftTitle(dto, t, u) && d.title != []
    ensures d.jurisdiction == DraftJurisdiction(dto, t)
  {
    DraftTitleNonEmpty(dto, t, u);
    Draft(id, u.id, t.id, DraftTitle(dto, t, u), InProgress, DraftJurisdiction(dto, t), map[], map[], 1)
  }

  /** `createDraft`: an unknown user, then an unresolved contract type,
      fail with nothing written; otherwise exactly one draft is appended. */
  method CreateDraft(users: Table<User>, types: Table<ContractType>, drafts: Table<Draft>, userId: string,
                     dto: CreateDraftRequest, freshId: string)
    returns (r: Result<Draft>)
    modifies drafts
    ensures var u := Find(users.rows, (u: User) => u.id == userId);
      && (u.None? ==> r == Failure(UserNotFoundMessage))
      && (u.Some? && ResolveType(types.rows, dto).None? ==> r == Failure(TypeNotFoundMessage))
      && (u.Some? && ResolveType(types.rows, dto).Some? ==>
            r == Success(NewDraft(freshId, users.rows[u.value], ResolveType(types.rows, dto).value, dto)))
    ensures r.Failure? ==> unchanged(drafts)
    ensures r.Success? ==> drafts.rows == old(drafts.rows) + [r.value]
  {
    var found := Find(users.rows, (u: User) => u.id == userId);
    if found.None? {
      return Failure(UserNotFoundMessage);
    }
    var user := users.rows[found.value];
    var contractType := ResolveType(types.rows, dto);
    if contractType.None? {
      return Failure(TypeNotFoundMessage);
    }
    var draft := NewDraft(freshId, user, contractType.value, dto);
    drafts.rows := drafts.rows + [draft];
    r := Success(draft);
  }

  /** A draft with its chat messages, oldest first. */
  datatype DraftView = DraftView(draft: Draft, messages: seq<ChatMessage>)

  /** The messages of one draft, in the order they were saved. */
  function MessagesOf(rows: seq<ChatMessage>, draftId: string): seq<ChatMessage> {
    Filter(rows, (m: ChatMessage) => m.draftId == draftId)
  }

  /** `getDraftForUserOrThrow`: a missing draft, then a draft of another
      user, fail; otherwise the draft comes with its messages. */
  method GetDraftForUser(drafts: Table<Draft>, messages: Table<ChatMessage>, draftId: string, userId: string)
    returns (r: Result<DraftView>)
    ensures var k := Find(drafts.rows, (d: Draft) => d.id == draftId);
      && (k.None? ==> r == Failure(DraftNotFoundMessage))
      && (k.Some? && drafts.rows[k.value].userId != userId ==> r == Failure(NotYourDraftMessage))
      && (k.Some? && drafts.rows[k.value].userId == userId ==>
            r == Success(DraftView(drafts.rows[k.value], MessagesOf(messages.rows, draftId))))
    ensures r.Success? ==> r.value.draft.userId == userId && r.value.draft.id == draftId
  {
    var k := Find(drafts.rows, (d: Draft) => d.id == draftId);
    if k.None? {
      return Failure(DraftNotFoundMessage);
    }
    var draft := drafts.rows[k.value];
    if draft.userId != userId {
      return Failure(NotYourDraftMessage);
    }
    r := Success(DraftView(draft, MessagesOf(messages.rows, draftId)));
  }

  /** `addMessageToDraft`: the ownership check comes first, so a refused
      request stores nothing; an accepted one stores one message and
      answers with the conversation ending in it. */
  method AddMessageToDraft(drafts: Table<Draft>, messages: Table<ChatMessage>, draftId: string, userId: string,
                           sender: Sender, message: string)
    returns (r: Result<DraftView>)
    modifies messages
    ensures var k := Find(drafts.rows, (d: Draft) => d.id == draftId);
      r.Success? <==> k.Some? && drafts.rows[k.value].userId == userId
    ensures r.Failure? ==> unchanged(messages)
    ensures r.Success? ==>
      && messages.rows == old(messages.rows) + [ChatMessage(draftId, sender, message)]
      && r.value.messages == MessagesOf(old(messages.rows), draftId) + [ChatMessage(draftId, sender, message)]
  {
    var view := GetDraftForUser(drafts, messages, draftId, userId);
    if view.Failure? {
      return view;
    }
    var msg := ChatMessage(draftId, sender, message);
    FilterAppend(messages.rows, msg, (m: ChatMessage) => m.draftId == draftId);
    messages.rows := messages.rows + [msg];
    r := GetDraftForUser(drafts, messages, draftId, userId);
  }
}
