# Orange Email Assistant — a verified model of its logic

Orange Email Assistant is a Next.js web mail client on top of Gmail with an
AI assistant. This project models in Dafny the parts of it that are
sequential, deterministic logic, and proves what they promise:

- the AI relay endpoint (`POST /api/ai/process`): request validation, the
  payload sent to the model server, and the line-buffering decoder that turns
  the model's streamed JSON lines into plain text pieces (module `Relay`);
- the chat panel: per-e-mail conversation histories, the welcome message of
  a new conversation, the prompts and the combined content of the four
  assistant actions, streaming into the last message and the error
  replacement (module `Chat`);
- the inbox endpoint (`GET` and `DELETE /api/emails`): the Gmail search
  query built from the filter parameters, the header-to-e-mail projection and
  the mapping of failures to HTTP statuses (module `EmailsRoute`);
- the dashboard page: the filters-to-parameters mapping, the page-token
  stack, the completion of e-mails before an assistant action, the
  post-delete refresh and the splitter clamp (module `Dashboard`);
- the e-mail list: case-insensitive search, toggle and select-all, batch
  actions in list order, the delete confirmation and the single-email view
  (module `EmailList`);
- the advanced-filter panel (module `FilterPanel`), the theme provider
  (module `Theme`) and the header's account defaults and initials (module
  `Header`).

`JsText` holds the JavaScript string behaviour the code relies on (`trim`,
`split` on a character, `join`, `includes`, `toLowerCase`, `x || d`), with
the lemmas connecting them, and `Mail` the e-mail records shared by the
server and the client.

Modelling choices:

- Each React handler or effect is one atomic step of a class; state fields
  are class fields, and the callbacks a component calls on its parent are
  recorded in a sequence field (`notices`, `events`, `requests`, ...).
- Everything behind the network (Gmail, the model server, the application's
  own endpoints, the session) is a function parameter returning an outcome
  datatype; `JSON.parse` of a streamed line is a parameter returning a
  `ParseResult`.
- Stream chunks are already-decoded strings; `null` and `undefined` are
  `None`.
- Where a thrown exception is caught, the model follows the path the code
  takes after the `catch`.

The code and the written design differ in a few places; the model follows
the code:

- select-all compares only the number of selected ids with the number of
  filtered e-mails, not which ids they are (`EmailList.SelectAllCountsOnly`);
- the view merge applies the details to on-screen state, so details that
  arrive after the view was closed reopen it (`EmailList.Inbox.DetailsArrived`);
- the delete confirmation is opened from the single-email view too, but the
  dialog is part of the list view only.

## Model

| member | source | states |
|---|---|---|
| JsText.Or | app/api/emails/route.ts:29-35 | `x \|\| d` on an optional string: the value when present and non-empty, `d` otherwise |
| JsText.Trim | app/api/ai/process/route.ts:81 | the result occurs in the input, has no white space at either end, and is empty exactly when the input is blank |
| JsText.TrimTrimmed | app/api/ai/process/route.ts:104 | trimming twice is trimming once |
| JsText.JoinSplit | app/api/ai/process/route.ts:76 | joining the pieces of a split with the separator gives the text back |
| JsText.SplitJoin | app/api/emails/route.ts:41 | splitting a join of separator-free pieces gives the pieces back |
| JsText.SplitOnConcat | app/api/ai/process/route.ts:73-78 | the split of a concatenation fuses the last piece of the left side with the first of the right |
| JsText.ContainsAt | components/email-interface.tsx:128-129 | `includes` holds exactly when the text occurs at some position |
| JsText.ToLower | components/email-interface.tsx:128-129 | same length, each character lower-cased |
| JsText.Pad2Digits | app/api/emails/route.ts:54 | `padStart(2, "0")` of a two-digit number gives back its two digits |
| JsText.FlatMapConcat | components/chatbot-interface.tsx:181-185 | flat-mapping a concatenation concatenates the results |
| JsText.FlatMapAround | components/chatbot-interface.tsx:181-185 | the part an element contributes sits between the parts of the elements before and after it |
| JsText.WithoutMember | components/email-interface.tsx:184 | `filter(x => x !== id)` keeps exactly the other elements |
| JsText.WithoutAbsent | components/email-filter-panel.tsx:35 | filtering out an absent value changes nothing |
| Relay.Images | app/api/ai/process/route.ts:33-36 | `images` is present exactly for a non-empty attachment array, same length, each `{data, filename}` from the same position |
| Relay.Admissible | app/api/ai/process/route.ts:12 | definition: served only when the prompt or the e-mail content is a non-empty string |
| Relay.UserContent | app/api/ai/process/route.ts:21 | definition: the trimmed prompt, a blank line, and the e-mail content, absent parts read as empty |
| Relay.Extract | app/api/ai/process/route.ts:87-91 | definition: for a JSON line, the rendered `messageContent ?? text ?? data` when truthy, else nothing |
| Relay.LineWrites | app/api/ai/process/route.ts:81-97 | at most one write per line; what it writes is stated in `LineOutput` |
| Relay.FlushWrites | app/api/ai/process/route.ts:102-113 | at most one write for the remainder; what it writes is stated in `FlushOutput` |
| Relay.CompleteLines | app/api/ai/process/route.ts:76-78 | definition: the pieces before the last line feed, each without a trailing carriage return |
| Relay.Remainder | app/api/ai/process/route.ts:76-78 | the text kept in the buffer holds no line feed |
| Relay.StreamWrites | app/api/ai/process/route.ts:66-124 | definition: the writes for all complete lines, then the flushed remainder or, after a failed read, the error marker |
| Relay.BuildPayload | app/api/ai/process/route.ts:18-36 | the fixed model, streaming on, one user turn with the combined text, and the images |
| Relay.PromptOnly | app/api/ai/process/route.ts:21 | without email content the user turn is the trimmed prompt |
| Relay.EmailContentOnly | app/api/ai/process/route.ts:21 | without a prompt the user turn is the trimmed email content |
| Relay.Coalesce | app/api/ai/process/route.ts:87 | `a ?? b ?? c ?? null`: the first value that is neither null nor missing |
| Relay.LineOutput | app/api/ai/process/route.ts:81-96 | a blank line writes nothing; a non-JSON line writes the trimmed line and a line feed; a JSON line writes the rendered coalesced value when it is truthy and nothing otherwise |
| Relay.FlushOutput | app/api/ai/process/route.ts:102-113 | the remainder at the end: nothing when blank, the trimmed text without a line feed when not JSON, the rendered coalesced value when it is truthy and nothing otherwise |
| Relay.EmptyContentSuppresses | app/api/ai/process/route.ts:87-88 | an empty `message.content` suppresses the line, and the remainder, even when `text` is set |
| Relay.SplitLineBreaks | app/api/ai/process/route.ts:76-78 | splitting on `\r?\n` gives the complete lines followed by the held-back remainder |
| Relay.LinesCoverText | app/api/ai/process/route.ts:76 | without carriage returns, the lines and the remainder joined by line feeds are the text |
| Relay.ChunkBoundary | app/api/ai/process/route.ts:73-78 | appending a chunk re-frames only the old remainder: earlier complete lines stay as they were |
| Relay.DecodedConcat | app/api/ai/process/route.ts:70-73 | the decoded text of a list of chunks is the concatenation of the decoded parts |
| Relay.StreamWritesBound | app/api/ai/process/route.ts:80-113 | at most one write per complete line, plus one |
| Relay.FlushAsLine | app/api/ai/process/route.ts:102-113 | a final line feed changes the output only for a raw remainder, which then gains its `\n` |
| Relay.ForwardLine | app/api/ai/process/route.ts:81-97 | the writer gains exactly the writes of the line rule |
| Relay.FlushRemainder | app/api/ai/process/route.ts:102-113 | the writer gains exactly the writes of the flush rule |
| Relay.ForwardLines | app/api/ai/process/route.ts:80-98 | each complete line is handled once, in order |
| Relay.ForwardChunk | app/api/ai/process/route.ts:73-98 | appending a chunk forwards the complete lines of the kept text and keeps the text after its last line break |
| Relay.ReadChunks | app/api/ai/process/route.ts:67-99 | after the read loop the buffer is the remainder of the whole decoded text and the writer holds the writes of its complete lines, whatever the chunk boundaries |
| Relay.ReadStep | app/api/ai/process/route.ts:69-98 | one read: a value is appended and its complete lines forwarded, an empty read changes nothing; the buffer stays the remainder and the writes those of the text decoded so far |
| Relay.Pump | app/api/ai/process/route.ts:66-124 | the writer ends closed, holding the writes for the decoded text of all chunks: the complete lines, then the flush, or the error marker after a failed read |
| Relay.Forward | app/api/ai/process/route.ts:50-134 | a readable body is relayed as plain text holding the stream's writes; otherwise the body goes through raw with the upstream content type or `application/octet-stream` |
| Relay.Post | app/api/ai/process/route.ts:3-137 | 500 for an unreadable body, 400 when prompt and content are both falsy, 500 or 502 for upstream failures, the raw body without a reader, else the relayed text |
| Chat.Welcome | components/chatbot-interface.tsx:112-117 | a bot message that names the sender and the subject |
| Chat.ActionPrompt | components/chatbot-interface.tsx:143-157 | a non-empty prompt for every action kind |
| Chat.FirstEmailOnly | components/chatbot-interface.tsx:153-156 | planning and archiving prompts depend on the first e-mail only |
| Chat.CountOnly | components/chatbot-interface.tsx:146-152 | the multi-e-mail summary and reply prompts depend only on the count |
| Chat.Segments | components/chatbot-interface.tsx:180 | one `--- Email i+1` segment per e-mail, in order |
| Chat.CombinedContentBounds | components/chatbot-interface.tsx:172-180 | several e-mails give content that starts with the first header and ends with the last content |
| Chat.CombinedContent | components/chatbot-interface.tsx:171-180 | definition: one e-mail sends its own content, several the numbered segments joined by blank lines |
| Chat.Forwarded | components/chatbot-interface.tsx:174-184 | each attachment becomes `{filename, data}`, in order |
| Chat.OwnAttachments | components/chatbot-interface.tsx:174-178 | definition: an e-mail without attachments contributes none, otherwise each as `{filename, data}` |
| Chat.CollectAttachments | components/chatbot-interface.tsx:170-185 | the loops collect every e-mail's attachments in e-mail order |
| Chat.ActionRequest | components/chatbot-interface.tsx:141-191 | the request sent for an action carries its prompt, the combined content and the collected attachments, and is always admissible |
| Chat.AttachmentsInEmailOrder | components/chatbot-interface.tsx:181-185 | e-mail i's attachments sit between those of the e-mails before and after it |
| Chat.AppendToLast | components/chatbot-interface.tsx:211-216 | a chunk is appended to the last message only; the empty list is unchanged |
| Chat.AppendTwice | components/chatbot-interface.tsx:277-281 | appending two chunks is appending their concatenation |
| Chat.SetLastContent | components/chatbot-interface.tsx:196 | the last message's content is replaced, every other message kept |
| Chat.SettleTouchesOnlyLast | components/chatbot-interface.tsx:194-224 | a failure rewrites the last message to `Erreur: ...`, every other message is kept |
| Chat.Settle | components/chatbot-interface.tsx:194-224 | definition: a throw or a refusal sets the last message to the error text, a stream appends the decoded chunks, then an error text if a read failed |
| Chat.Chatbot.constructor | components/chatbot-interface.tsx:48-60 | no conversations, no current id, the greeting |
| Chat.Chatbot.SwitchContext | components/chatbot-interface.tsx:104-125 | the same id changes nothing; a new id loads its stored history or creates and stores one welcome message |
| Chat.Chatbot.Mirror | components/chatbot-interface.tsx:127-134 | non-empty messages are stored under the current id only |
| Chat.Chatbot.StreamInto | components/chatbot-interface.tsx:205-218 | the decoded chunks are appended to the last message |
| Chat.Chatbot.Receive | components/chatbot-interface.tsx:194-224 | the outcome settles the last message |
| Chat.Chatbot.RunAction | components/chatbot-interface.tsx:138-225 | no kind or no e-mails does nothing; otherwise one placeholder, one admissible request, one completion |
| Chat.Chatbot.SendMessage | components/chatbot-interface.tsx:230-288 | blank input does nothing; otherwise the user message, a placeholder and one admissible request |
| Chat.Chatbot.MeetingAccept | components/chatbot-interface.tsx:290-300 | one bot confirmation naming the pending action; permission cleared |
| Chat.Chatbot.MeetingRefuse | components/chatbot-interface.tsx:302-312 | one bot refusal; permission cleared |
| Chat.SwitchThenMirror | components/chatbot-interface.tsx:104-134 | after a switch and a mirror the current history is stored under the new id and no other key changes |
| EmailsRoute.NonEmpty | app/api/emails/route.ts:41 | `filter(Boolean)`: an element survives exactly when it is in the input and non-empty |
| EmailsRoute.NonEmptyConcat | app/api/emails/route.ts:41 | filtering distributes over concatenation, so order is kept |
| EmailsRoute.TrimAll | app/api/emails/route.ts:41 | `map(s => s.trim())`: same length, each element trimmed in place |
| EmailsRoute.SenderList | app/api/emails/route.ts:41 | every sender listed is non-empty |
| EmailsRoute.NonEmptyKeepsAll | app/api/emails/route.ts:41 | a list without empty elements is kept whole |
| EmailsRoute.SenderListClean | app/api/emails/route.ts:41 | every listed sender is non-empty, comma-free and trimmed |
| EmailsRoute.SenderListRoundTrip | app/api/emails/route.ts:41 | clean senders joined by commas are read back as the same list, in order |
| EmailsRoute.EmptySenderList | app/api/emails/route.ts:40-47 | no senders give an empty list |
| EmailsRoute.SenderPart | app/api/emails/route.ts:42-46 | the OR group is added exactly when the list is non-empty |
| EmailsRoute.FromTerms | app/api/emails/route.ts:44 | one `from:` term per sender, in order |
| EmailsRoute.NextDayIsSuccessor | app/api/emails/route.ts:52-53 | the next day is a valid date, later, with no valid date in between |
| EmailsRoute.ParseIsoDate | app/api/emails/route.ts:52 | a parsed date is a valid calendar date |
| EmailsRoute.AfterMatchesBeforeFormat | app/api/emails/route.ts:50-54 | `after:` text and `before:` formatting agree on the same date |
| EmailsRoute.BuildQuery | app/api/emails/route.ts:37-66 | the query is the parts pushed in order joined by single spaces |
| EmailsRoute.QueryParts | app/api/emails/route.ts:37-66 | definition: the base query, then subject, contained words, senders and date terms, each only when given |
| EmailsRoute.DateParts | app/api/emails/route.ts:48-57 | definition: a single date gives `after:` and `before:` the next day and wins over the range; otherwise each given range end gives its term |
| EmailsRoute.DayAfter | app/api/emails/route.ts:52-54 | definition: the day after a valid date in `YYYY/MM/DD`, the invalid-date text otherwise |
| EmailsRoute.NextDay | app/api/emails/route.ts:52-53 | definition: the following calendar day, across month and year ends; its properties are in `NextDayIsSuccessor` |
| EmailsRoute.QueryStartsWithBase | app/api/emails/route.ts:37-66 | the query always starts with the category exclusions |
| EmailsRoute.SingleDateWins | app/api/emails/route.ts:48-57 | with a single date the range parameters do not affect the query |
| EmailsRoute.ListRequestFor | app/api/emails/route.ts:68-74 | INBOX, 20 results, the query, and a page token exactly when it is truthy |
| EmailsRoute.HeaderValue | app/api/emails/route.ts:96-98 | the value of a header with that name; none when no header has it |
| EmailsRoute.FirstHeaderWins | app/api/emails/route.ts:96-98 | when header i is the first with the name, `find` yields its value |
| EmailsRoute.AngleMatch | app/api/emails/route.ts:104 | the match starts at the leftmost `<` followed on its line by a `>`, and ends at the last `>` on that line |
| EmailsRoute.LastCloseIsLast | app/api/emails/route.ts:104 | the greedy `.*>` ends at a `>` on the same line, and every `>` on that line lies at or before it |
| EmailsRoute.StripAngle | app/api/emails/route.ts:104 | text without a match is unchanged |
| EmailsRoute.StripAngleOfAddress | app/api/emails/route.ts:104 | `Name <addr>` loses the address |
| EmailsRoute.Project | app/api/emails/route.ts:94-113 | the subject and sender defaults, the stripped sender, label flags, attachment flag, empty content |
| EmailsRoute.ProjectWithoutHeaders | app/api/emails/route.ts:95-97 | no headers give `No Subject` and `Unknown Sender` |
| EmailsRoute.Projected | app/api/emails/route.ts:94 | one e-mail per message, in order |
| EmailsRoute.ClassifyListError | app/api/emails/route.ts:116-132 | 401 exactly for a revoked grant or a missing authentication, otherwise 500 |
| EmailsRoute.MentionsExpiry | app/api/emails/route.ts:123 | definition: `/expired\|revoked/i`, a case-blind search for either word |
| EmailsRoute.GrantRevoked | app/api/emails/route.ts:123 | definition: the message or Google's error is `invalid_grant`, or Google's description mentions expiry or revocation |
| EmailsRoute.ClassifyDeleteError | app/api/emails/route.ts:173-184 | 401 exactly for a revoked grant, otherwise 500 |
| EmailsRoute.MissingTokenIsUnauthorized | app/api/emails/route.ts:126-127 | the error thrown for a missing token (line 12) is answered with 401 |
| EmailsRoute.Get | app/api/emails/route.ts:6-134 | the list request built from the query, the empty-list answer, the projected e-mails with the next token, or the classified error |
| EmailsRoute.Delete | app/api/emails/route.ts:136-186 | 401 without a token, 400 without ids, the count of ids on success, else the classified error |
| Dashboard.BuildParams | app/dashboard/page.tsx:63-76 | the appended parameters are the truthy filter fields, then the page token |
| Dashboard.ParamsFor | app/dashboard/page.tsx:63-76 | definition: the filter parameters when filters are set, then the page token when it is non-empty |
| Dashboard.FilterParams | app/dashboard/page.tsx:65-75 | definition: subject, words, single date, range start and end, senders, each only when non-empty, in that order |
| Dashboard.SendersValue | app/dashboard/page.tsx:71-73 | definition: the custom filter values, empty ones dropped, joined by commas |
| Dashboard.AppendFilters | app/dashboard/page.tsx:65-75 | one parameter per truthy filter field, in the code's order |
| Dashboard.LookupConcat | app/dashboard/page.tsx:63-78 | reading a key of concatenated parameters finds the first occurrence |
| Dashboard.FilterParamsRead | app/dashboard/page.tsx:65-75 | each filter key reads back its own field, or nothing when the field is empty |
| Dashboard.RouteReceives | app/dashboard/page.tsx:63-78 | the endpoint reads the page token and each filter field that was set |
| Dashboard.SendersReachRoute | app/dashboard/page.tsx:71-74 | the endpoint reads back exactly the non-empty custom sender values, in order |
| Dashboard.FullEmail | app/dashboard/page.tsx:222-240 | e-mails with content, and failed fetches, are unchanged; others take body, from and attachments with fallbacks |
| Dashboard.FullEmailIdempotent | app/dashboard/page.tsx:224-236 | completing twice is completing once |
| Dashboard.FullEmails | app/dashboard/page.tsx:221-243 | one completed e-mail per e-mail, in order |
| Dashboard.FullEmailsKeep | app/dashboard/page.tsx:221-243 | ids are kept and the e-mails that need no fetch are unchanged |
| Dashboard.Clamp | app/dashboard/page.tsx:121 | the width is in [25, 75], and is the input when that is already in range |
| Dashboard.Received | app/dashboard/page.tsx:78-98 | success replaces the list, next token and current token; 401 adds a sign-in; a failure keeps the state |
| Dashboard.Page.constructor | app/dashboard/page.tsx:33-48 | the initial state |
| Dashboard.Page.HasNextPage | app/dashboard/page.tsx:292 | definition: `!!nextPageToken` |
| Dashboard.Page.HasPrevPage | app/dashboard/page.tsx:293 | definition: the token stack is not empty |
| Dashboard.Page.Listing | app/dashboard/page.tsx:33-39 | definition: the e-mails, both page tokens and the sign-ins, the state a list reply can change |
| Dashboard.Page.FetchEmails | app/dashboard/page.tsx:59-99 | nothing unless authenticated; otherwise one request with the mapped parameters, the reply applied, loading over |
| Dashboard.Page.SessionReady | app/dashboard/page.tsx:101-106 | authenticated and loaded; one request for the first page with the current filters, whose reply decides the listing |
| Dashboard.Page.LoadNextPage | app/dashboard/page.tsx:133-138 | a no-op without a next token; otherwise pushes the current token or `""` and fetches the next page, the listing being that reply received |
| Dashboard.Page.LoadPrevPage | app/dashboard/page.tsx:140-146 | a no-op on an empty stack; otherwise pops and fetches that token, `""` read as none, the listing being that reply received |
| Dashboard.Page.ApplyFilters | app/dashboard/page.tsx:148-155 | the filters kept, the stack emptied, the tokens cleared, and the first page fetched with the new filters |
| Dashboard.Page.EmailsSelect | app/dashboard/page.tsx:158-160 | the selection is the given ids |
| Dashboard.Page.EmailClick | app/dashboard/page.tsx:245-247 | the clicked e-mail becomes current |
| Dashboard.Page.RequestAction | app/dashboard/page.tsx:162-189 | the action carries the completed e-mails |
| Dashboard.Page.ActionComplete | app/dashboard/page.tsx:307 | the action is reset |
| Dashboard.Page.DeleteRequest | app/dashboard/page.tsx:191-218 | the ids sent in order; success clears selection and current e-mail and refetches the current page; a refusal signs in on 401 and changes nothing else; a throw changes nothing |
| Dashboard.Page.MouseMove | app/dashboard/page.tsx:114-122 | while resizing the width is the clamped value; the width stays in range |
| Dashboard.Page.SplitterDown | app/dashboard/page.tsx:299 | resizing starts |
| Dashboard.Page.MouseUp | app/dashboard/page.tsx:124 | resizing stops |
| Dashboard.NextThenPrev | app/dashboard/page.tsx:133-146 | next then previous restores the stack and fetches the original page |
| FilterPanel.Added | components/email-filter-panel.tsx:30-32 | one new empty sender filter at the end, existing ones unchanged |
| FilterPanel.Removed | components/email-filter-panel.tsx:34-36 | an entry is kept exactly when it is in the list and has another id; none with the id remains |
| FilterPanel.RemovedKeepsOthers | components/email-filter-panel.tsx:34-36 | removing an id no entry has changes nothing |
| FilterPanel.RemovedConcat | components/email-filter-panel.tsx:34-36 | removal distributes over concatenation, so the kept entries stay in order |
| FilterPanel.RemoveOnly | components/email-filter-panel.tsx:34-36 | removing the id of the only entry that has it drops exactly that entry |
| FilterPanel.AddThenRemove | components/email-filter-panel.tsx:30-36 | removing a just-added filter with a fresh id gives the list back |
| FilterPanel.Updated | components/email-filter-panel.tsx:38-40 | same length and ids; only the value of the matching entries changes |
| FilterPanel.UpdateThenRemove | components/email-filter-panel.tsx:34-40 | updating then removing a filter is removing it |
| FilterPanel.Panel.Current | components/email-filter-panel.tsx:43-50 | the fields verbatim, a date range exactly when both ends are filled |
| FilterPanel.Panel.ApplyFilters | components/email-filter-panel.tsx:42-52 | the filters are handed over and then the panel closes |
| FilterPanel.Panel.Reset | components/email-filter-panel.tsx:54-61 | every field back to empty |
| FilterPanel.Panel.AddCustomFilter | components/email-filter-panel.tsx:30-32 | the list becomes `Added`, nothing else changes |
| FilterPanel.Panel.RemoveCustomFilter | components/email-filter-panel.tsx:34-36 | the list becomes `Removed`, nothing else changes |
| FilterPanel.Panel.UpdateCustomFilter | components/email-filter-panel.tsx:38-40 | the list becomes `Updated`, nothing else changes |
| EmailList.Filtered | components/email-interface.tsx:126-131 | only matching e-mails of the list are kept |
| EmailList.Matches | components/email-interface.tsx:126-131 | definition: the lower-cased sender or subject contains the lower-cased query |
| EmailList.FilteredMember | components/email-interface.tsx:126-131 | an e-mail is kept exactly when it is listed and matches |
| EmailList.FilteredConcat | components/email-interface.tsx:126 | the search keeps list order |
| EmailList.EmptyQueryKeepsAll | components/email-interface.tsx:126-131 | the empty search keeps every e-mail |
| EmailList.FilteredIgnoresCase | components/email-interface.tsx:128-129 | the case of the query does not matter |
| EmailList.Toggled | components/email-interface.tsx:182-188 | a selected id is removed; another is appended at the end |
| EmailList.ToggledMember | components/email-interface.tsx:182-188 | toggling flips the id and keeps every other id as it was |
| EmailList.ToggleTwice | components/email-interface.tsx:182-188 | toggling an unselected id twice restores the selection |
| EmailList.SelectAll | components/email-interface.tsx:190-196 | clears when the counts agree, otherwise selects all filtered ids in order |
| EmailList.SelectAllTwice | components/email-interface.tsx:190-196 | from a partial selection the second select-all clears it; from a selection as long as the list it selects every filtered id |
| EmailList.SelectAllCountsOnly | components/email-interface.tsx:191 | a selection as long as the filtered list clears even when it shares no id with it |
| EmailList.Selected | components/email-interface.tsx:199 | only listed e-mails whose id is selected |
| EmailList.SelectedMember | components/email-interface.tsx:199 | an e-mail is passed exactly when it is listed and its id is selected |
| EmailList.SelectedIgnoresOrder | components/email-interface.tsx:199-217 | the order of the selected ids does not matter |
| EmailList.SelectedConcat | components/email-interface.tsx:199 | batch selection keeps list order |
| EmailList.Viewed | components/email-interface.tsx:244-254 | body, attachments and sender taken when truthy, else the old values; everything else kept |
| EmailList.ViewedIdempotent | components/email-interface.tsx:244-254 | merging the same details twice is merging once |
| EmailList.Inbox.FilteredEmails | components/email-interface.tsx:126-131 | the visible e-mails are the listed ones matching the search |
| EmailList.Inbox.SetSearch | components/email-interface.tsx:426 | the search field holds the typed text and nothing else changes |
| EmailList.Inbox.SelectEmail | components/email-interface.tsx:182-188 | reports the toggled selection |
| EmailList.Inbox.SelectAllToggle | components/email-interface.tsx:190-196 | reports the select-all selection |
| EmailList.Inbox.BatchSummary | components/email-interface.tsx:198-201 | requests a summary of the selected e-mails |
| EmailList.Inbox.BatchReply | components/email-interface.tsx:203-206 | requests a reply to the selected e-mails |
| EmailList.Inbox.BatchDelete | components/email-interface.tsx:208-214 | with a handler, the selected e-mails become pending and the dialog opens; otherwise nothing |
| EmailList.Inbox.BatchArchiver | components/email-interface.tsx:216-221 | with a handler, the selected e-mails are sent for archiving; otherwise nothing |
| EmailList.Inbox.ConfirmDelete | components/email-interface.tsx:380-389 | with a handler, the dialog closes, the pending e-mails are handed over, and nothing stays pending |
| EmailList.Inbox.DialogOpenChange | components/email-interface.tsx:392 | the dialog follows its open state |
| EmailList.Inbox.ViewEmail | components/email-interface.tsx:225-233 | the clicked e-mail is shown, loading, and reported |
| EmailList.Inbox.DetailsArrived | components/email-interface.tsx:234-260 | details merged into the e-mail on screen, or into the clicked one if the view was closed; a failure keeps it; loading ends |
| EmailList.Inbox.CloseView | components/email-interface.tsx:278 | the view is closed |
| EmailList.Inbox.ViewSummary | components/email-interface.tsx:304 | requests a summary of the viewed e-mail |
| EmailList.Inbox.ViewReply | components/email-interface.tsx:311 | requests a reply to the viewed e-mail |
| EmailList.Inbox.ViewDelete | components/email-interface.tsx:318-323 | with a handler, the viewed e-mail becomes pending and the dialog opens |
| EmailList.Inbox.ViewArchiver | components/email-interface.tsx:330 | with a handler, the viewed e-mail is sent for archiving |
| EmailList.DeleteSelected | components/email-interface.tsx:380-389 | batch delete then confirm hands over exactly the selected e-mails in list order and leaves nothing pending |
| EmailList.OpenEmail | components/email-interface.tsx:224-261 | opening an e-mail and receiving its details shows the merged e-mail |
| Theme.Flipped | components/theme-provider.tsx:38 | light goes to dark, anything else to light |
| Theme.FlipTwice | components/theme-provider.tsx:37-38 | on the two themes, toggling twice is the identity |
| Theme.FlipTwiceOther | components/theme-provider.tsx:31-38 | a stored value that is neither theme ends as dark after two toggles |
| Theme.WithoutThemesMember | components/theme-provider.tsx:22 | removing both themes keeps exactly the other classes |
| Theme.WithoutThemes | components/theme-provider.tsx:22 | definition: the class list with `light` and `dark` removed |
| Theme.ValidToken | components/theme-provider.tsx:23 | definition: the token test of `classList.add`, non-empty and without ASCII whitespace |
| Theme.WithoutNoDuplicates | components/theme-provider.tsx:22 | removing a class keeps the class list free of duplicates |
| Theme.UseTheme | components/theme-provider.tsx:52-57 | outside a provider the hook fails with its message; inside it returns the context |
| Theme.Provider.ApplyTheme | components/theme-provider.tsx:20-27 | the theme class present, the other theme absent, every other class and its order kept, the attribute set |
| Theme.Provider.Mount | components/theme-provider.tsx:29-35 | mounted; the saved theme if non-empty, else light, applied |
| Theme.Provider.Toggle | components/theme-provider.tsx:37-42 | the flipped theme stored under `orange-theme` and applied |
| Theme.Provider.Rendered | components/theme-provider.tsx:44-49 | nothing before mount, afterwards the context with the theme |
| Theme.ToggleTwice | components/theme-provider.tsx:37-42 | two toggles restore the theme and leave it stored and applied |
| Header.Initials | components/dashboard-header.tsx:29 | never empty |
| Header.AccountOf | components/dashboard-header.tsx:25-30 | each field is the session value when truthy, else its default |
| Header.MissingNameInitials | components/dashboard-header.tsx:29 | a missing or empty name gives `U` |
| Header.FirstsOfWords | components/dashboard-header.tsx:29 | non-empty pieces contribute their first characters, in order |
| Header.WordInitials | components/dashboard-header.tsx:29 | words separated by single spaces give their first characters |
| Header.EmptyPieceIgnored | components/dashboard-header.tsx:29 | an empty piece contributes nothing |
| Header.DoubleSpace | components/dashboard-header.tsx:29 | a doubled space in the name does not change the initials |

## Left out

- Network, authentication and Gmail: `fetch`, the `googleapis` client, `getToken`, `useSession` and `signIn` are outcome parameters; `signIn` is counted but not followed.
- `TextDecoder` and `TextEncoder`: chunks are decoded strings, and multi-byte characters split across chunks are not modelled.
- `JSON.parse` and `JSON.stringify`: a streamed line's parse is a parameter; request and response bodies are records.
- Writer failures: the relay swallows write errors, and the model's writer never fails; the client disconnecting is not modelled.
- Concurrency: fire-and-forget async blocks, overlapping requests and stale React closures are not modelled; each handler runs to completion.
- `Date` and locales: `new Date("YYYY-MM-DD")` time-zone shifts and lenient parsing are not modelled; the next day is plain calendar arithmetic on a strict `YYYY-MM-DD`, anything else gives `NaN/NaN/NaN`, also a day past its month's end such as `2023-02-30`, which a JavaScript engine may roll over into the next month; `toLocaleDateString` is a parameter.
- `Date.now()` ids are parameters with no uniqueness assumed.
- `toLowerCase` is modelled for ASCII and Latin-1 capitals only.
- URL percent-encoding of the parameters is not modelled; the endpoint reads back the values appended.
- The DELETE error body's `googleError` and `stack` fields are not modelled.
- The splitter's floating-point ratio and `Math.round` are not modelled; the integer percentage is an input, and only the clamp is modelled.
- The list's scroll and thumb layout, all JSX rendering, the login redirect effect, the splash screen and the other pages are not modelled.
- `showMeetingPermission` is never set to true by the code, so the meeting handlers are modelled as they stand.
- Gmail metadata is assumed to carry an id and a snippet; a rejected `Promise.all` of the batch is a failure outcome.
- The header's `s[0]` takes one UTF-16 code unit; the model takes one Unicode scalar value, so names starting with a character outside the BMP differ.
- A `__proto__` or other prototype key in the conversation map is not modelled; the map is a plain Dafny `map`.
