/** The dashboard page of app/dashboard/page.tsx: it turns the applied filters
    and a page token into the inbox request, keeps the stack of earlier page
    tokens for paging back, completes e-mails before handing them to the
    chatbot, and resets its state after a deletion. The session, the two API
    endpoints and the detail endpoint are parameters. */
module Dashboard {
  import opened JsText
  import Mail
  import opened FilterPanel
  import EmailsRoute
  import Chat

  // ---------------------------------------------------------------------------
  // Request parameters
  // ---------------------------------------------------------------------------

  /** The query-string keys the page sends. */
  datatype Key = Subject | Contains | SingleDate | DateStart | DateEnd | Senders | PageToken

  /** The name each key has in the query string. */
  function KeyName(k: Key): string {
    match k
    case Subject => "subject"
    case Contains => "contains"
    case SingleDate => "singleDate"
    case DateStart => "dateStart"
    case DateEnd => "dateEnd"
    case Senders => "senders"
    case PageToken => "pageToken"
  }

  /** One `key=value` pair of the query string. */
  datatype Param = Param(key: Key, value: string)

  /** `c => c.value` over the sender filters. */
  function Values(cf: seq<CustomFilter>): (r: seq<string>)
    ensures |r| == |cf|
    ensures forall i :: 0 <= i < |cf| ==> r[i] == cf[i].value
  {
    seq(|cf|, i requires 0 <= i < |cf| => cf[i].value)
  }

  /** `customFilters.map(c => c.value).filter(Boolean).join(",")`. */
  function SendersValue(cf: seq<CustomFilter>): string {
    Join(EmailsRoute.NonEmpty(Values(cf)), ",")
  }

  /** `if (value) params.append(key, value)` as a list: the pair when the
      value is non-empty, nothing otherwise. */
  function Opt(key: Key, value: string): seq<Param> {
    if value != "" then [Param(key, value)] else []
  }

  /** The value the page sends for a filter key; `""` when it sends none. */
  function FieldValue(g: Filters, key: Key): string {
    match key
    case Subject => g.subject
    case Contains => g.containsWords
    case SingleDate => g.singleDate
    case DateStart => if g.dateRange.Some? then g.dateRange.value.start else ""
    case DateEnd => if g.dateRange.Some? then g.dateRange.value.end else ""
    case Senders => if |g.customFilters| > 0 then SendersValue(g.customFilters) else ""
    case PageToken => ""
  }

  /** The filter part of the query string, in the order the page appends
      it. */
  function FilterParams(g: Filters): seq<Param> {
    Opt(Subject, FieldValue(g, Subject)) + Opt(Contains, FieldValue(g, Contains))
    + Opt(SingleDate, FieldValue(g, SingleDate)) + Opt(DateStart, FieldValue(g, DateStart))
    + Opt(DateEnd, FieldValue(g, DateEnd)) + Opt(Senders, FieldValue(g, Senders))
  }

  /** The query string of the inbox request: the filters, when there are
      any, then the page token. */
  function ParamsFor(f: Option<Filters>, pageToken: Option<string>): seq<Param> {
    (if f.Some? then FilterParams(f.value) else []) + Opt(PageToken, Or(pageToken, ""))
  }

  /** The `URLSearchParams` of `fetchEmails`, appended field by field. */
  method BuildParams(f: Option<Filters>, pageToken: Option<string>) returns (params: seq<Param>)
    ensures params == ParamsFor(f, pageToken)
  {
    params := [];
    if f.Some? {
      params := AppendFilters(f.value);
    }
    if Truthy(pageToken) {
      params := params + [Param(PageToken, pageToken.value)];
    }
  }

  /** The appends for the applied filters. */
  method AppendFilters(g: Filters) returns (params: seq<Param>)
    ensures params == FilterParams(g)
  {
    params := AppendIfSet([], Subject, g.subject);
    assert params == Opt(Subject, FieldValue(g, Subject));
    params := AppendIfSet(params, Contains, g.containsWords);
    assert params == Opt(Subject, FieldValue(g, Subject)) + Opt(Contains, FieldValue(g, Contains));
    ghost var done := params;
    params := AppendIfSet(params, SingleDate, g.singleDate);
    assert params == done + Opt(SingleDate, FieldValue(g, SingleDate));
    done := params;
    var start := if g.dateRange.Some? then g.dateRange.value.start else "";
    params := AppendIfSet(params, DateStart, start);
    assert params == done + Opt(DateStart, FieldValue(g, DateStart));
    done := params;
    var end := if g.dateRange.Some? then g.dateRange.value.end else "";
    params := AppendIfSet(params, DateEnd, end);
    assert params == done + Opt(DateEnd, FieldValue(g, DateEnd));
    done := params;
    var senders := "";
    if |g.customFilters| > 0 {
      senders := SendersValue(g.customFilters);
    }
    params := AppendIfSet(params, Senders, senders);
    assert params == done + Opt(Senders, FieldValue(g, Senders));
  }

  /** `if (value) params.append(key, value)`. */
  method AppendIfSet(params: seq<Param>, key: Key, value: string) returns (r: seq<Param>)
    ensures r == params + Opt(key, value)
  {
    r := params;
    if value != "" {
      r := r + [Param(key, value)];
    }
  }

  /** `URLSearchParams.get`: the value of the first pair with the key. */
  function Lookup(ps: seq<Param>, key: Key): Option<string> {
    if ps == [] then None
    else if ps[0].key == key then Some(ps[0].value)
    else Lookup(ps[1..], key)
  }

  /** A lookup in a concatenation tries the first part, then the second. */
  lemma {:induction false} LookupConcat(a: seq<Param>, b: seq<Param>, key: Key)
    ensures Lookup(a + b, key) == if Lookup(a, key).Some? then Lookup(a, key) else Lookup(b, key)
  {
    if a == [] {
      assert a + b == b;
    } else {
      assert (a + b)[0] == a[0];
      assert (a + b)[1..] == a[1..] + b;
      LookupConcat(a[1..], b, key);
    }
  }

  /** `""` is no parameter; anything else is one. */
  function Present(s: string): (r: Option<string>)
    ensures r.Some? <==> s != ""
    ensures Or(r, "") == s
  {
    if s != "" then Some(s) else None
  }

  /** The route's view of a query string: each parameter it reads. */
  function RouteParams(ps: seq<Param>): EmailsRoute.Params {
    EmailsRoute.Params(Lookup(ps, Subject), Lookup(ps, Contains), Lookup(ps, SingleDate),
                       Lookup(ps, DateStart), Lookup(ps, DateEnd), Lookup(ps, Senders),
                       Lookup(ps, PageToken))
  }

  /** Looking a key up in one optional pair. */
  lemma LookupOpt(k: Key, v: string, key: Key)
    ensures Lookup(Opt(k, v), key) == if k == key then Present(v) else None
  {
  }

  /** The route reads each filter field back from the filter part of the
      query string, and finds no page token there. */
  lemma FilterParamsRead(g: Filters, rest: seq<Param>, key: Key)
    ensures Lookup(FilterParams(g) + rest, key)
         == if key == PageToken || FieldValue(g, key) == "" then Lookup(rest, key) else Some(FieldValue(g, key))
  {
    var o1, o2, o3 := Opt(Subject, FieldValue(g, Subject)), Opt(Contains, FieldValue(g, Contains)), Opt(SingleDate, FieldValue(g, SingleDate));
    var o4, o5, o6 := Opt(DateStart, FieldValue(g, DateStart)), Opt(DateEnd, FieldValue(g, DateEnd)), Opt(Senders, FieldValue(g, Senders));
    LookupConcat(o1 + o2 + o3 + o4 + o5 + o6, rest, key);
    LookupConcat(o1 + o2 + o3 + o4 + o5, o6, key);
    LookupConcat(o1 + o2 + o3 + o4, o5, key);
    LookupConcat(o1 + o2 + o3, o4, key);
    LookupConcat(o1 + o2, o3, key);
    LookupConcat(o1, o2, key);
    LookupOpt(Subject, FieldValue(g, Subject), key);
    LookupOpt(Contains, FieldValue(g, Contains), key);
    LookupOpt(SingleDate, FieldValue(g, SingleDate), key);
    LookupOpt(DateStart, FieldValue(g, DateStart), key);
    LookupOpt(DateEnd, FieldValue(g, DateEnd), key);
    LookupOpt(Senders, FieldValue(g, Senders), key);
  }

  /** The search parameters the inbox route receives are exactly the
      non-empty filter fields (a date bound only with a date range, the
      senders only with sender filters) and the page token when it is
      truthy. */
  lemma RouteReceives(f: Option<Filters>, pageToken: Option<string>)
    ensures RouteParams(ParamsFor(f, pageToken)).pageToken == Present(Or(pageToken, ""))
    ensures f.None? ==> RouteParams(ParamsFor(f, pageToken)) == EmailsRoute.Params(None, None, None, None, None, None, Present(Or(pageToken, "")))
    ensures f.Some? ==>
              var g, p := f.value, RouteParams(ParamsFor(f, pageToken));
              && p.subject == Present(g.subject)
              && p.contains == Present(g.containsWords)
              && p.singleDate == Present(g.singleDate)
              && p.dateStart == (if g.dateRange.Some? then Present(g.dateRange.value.start) else None)
              && p.dateEnd == (if g.dateRange.Some? then Present(g.dateRange.value.end) else None)
              && p.senders == (if |g.customFilters| > 0 then Present(SendersValue(g.customFilters)) else None)
  {
    var tail := Opt(PageToken, Or(pageToken, ""));
    forall key: Key
      ensures Lookup(tail, key) == if key == PageToken then Present(Or(pageToken, "")) else None
    {
      LookupOpt(PageToken, Or(pageToken, ""), key);
    }
    if f.Some? {
      forall key: Key
        ensures Lookup(ParamsFor(f, pageToken), key)
             == if key == PageToken || FieldValue(f.value, key) == "" then Lookup(tail, key) else Some(FieldValue(f.value, key))
      {
        FilterParamsRead(f.value, tail, key);
      }
    } else {
      assert ParamsFor(f, pageToken) == tail;
    }
  }

  /** The senders parameter reads back, on the route, as the non-empty
      sender filter values in their order, when those values hold no comma
      and no surrounding white space. */
  lemma SendersReachRoute(cf: seq<CustomFilter>)
    requires forall i :: 0 <= i < |cf| && cf[i].value != "" ==> EmailsRoute.CleanSender(cf[i].value)
    ensures EmailsRoute.SenderList(SendersValue(cf)) == EmailsRoute.NonEmpty(Values(cf))
  {
    var list := EmailsRoute.NonEmpty(Values(cf));
    forall i | 0 <= i < |list|
      ensures EmailsRoute.CleanSender(list[i])
    {
      var j :| 0 <= j < |cf| && Values(cf)[j] == list[i];
    }
    EmailsRoute.SenderListRoundTrip(list);
  }

  // ---------------------------------------------------------------------------
  // Completing e-mails
  // ---------------------------------------------------------------------------

  /** `fetchFullEmails` on one e-mail: one with text is kept; otherwise the
      detail endpoint's answer (`None` when the request failed) fills in the
      body, the sender and the attachments. */
  function FullEmail(e: Mail.Email, details: Option<Mail.Details>): (r: Mail.Email)
    ensures !IsBlank(e.content) || details.None? ==> r == e
    ensures IsBlank(e.content) && details.Some? ==>
              && r.(content := e.content, sender := e.sender, attachments := e.attachments) == e
              && r.content == Or(details.value.body, e.content)
              && r.sender == Or(details.value.from, e.sender)
              && r.attachments == Some(if details.value.attachments.Some? then details.value.attachments.value
                                       else if e.attachments.Some? then e.attachments.value else [])
  {
    if !IsBlank(e.content) then e
    else match details
      case None => e
      case Some(d) =>
        var atts := if d.attachments.Some? then d.attachments.value else if e.attachments.Some? then e.attachments.value else [];
        e.(content := Or(d.body, e.content), attachments := Some(atts), sender := Or(d.from, e.sender))
  }

  /** Completing twice with the same answers is completing once. */
  lemma FullEmailIdempotent(e: Mail.Email, details: Option<Mail.Details>)
    ensures FullEmail(FullEmail(e, details), details) == FullEmail(e, details)
  {
  }

  /** `Promise.all(emails.map(...))`: every e-mail completed, in order.
      `details` is the detail endpoint's answer for an id. */
  function FullEmails(es: seq<Mail.Email>, details: string -> Option<Mail.Details>): (r: seq<Mail.Email>)
    ensures |r| == |es|
    ensures forall i :: 0 <= i < |es| ==> r[i] == FullEmail(es[i], details(es[i].id))
  {
    seq(|es|, i requires 0 <= i < |es| => FullEmail(es[i], details(es[i].id)))
  }

  /** The completed list keeps the ids in order, and every e-mail that has
      text, or whose request failed, is passed on as it was. */
  lemma FullEmailsKeep(es: seq<Mail.Email>, details: string -> Option<Mail.Details>)
    ensures forall i :: 0 <= i < |es| ==> FullEmails(es, details)[i].id == es[i].id
    ensures forall i :: 0 <= i < |es| && (!IsBlank(es[i].content) || details(es[i].id).None?) ==>
              FullEmails(es, details)[i] == es[i]
  {
  }

  /** The splitter position: `Math.max(25, Math.min(75, pct))`. */
  function Clamp(pct: int): (r: int)
    ensures 25 <= r <= 75
    ensures 25 <= pct <= 75 ==> r == pct
    ensures pct < 25 ==> r == 25
    ensures pct > 75 ==> r == 75
  {
    if pct < 25 then 25 else if pct > 75 then 75 else pct
  }

  // ---------------------------------------------------------------------------
  // The page
  // ---------------------------------------------------------------------------

  datatype SessionStatus = Loading | Authenticated | Unauthenticated

  /** What `/api/emails` answered a list request with. `ListNotOk` is a
      failure whose body is JSON, as the route always sends; a failure with
      a body that is not JSON ends in the catch, because `response.json()`
      has consumed the body and `response.text()` then rejects, so it is a
      `ListThrew`, with no sign-in even for a 401. */
  datatype ListReply = ListThrew | ListNotOk(status: int) | ListOk(emails: Option<seq<Mail.Email>>, nextPageToken: Option<string>)

  /** What `/api/emails` answered a delete request with. */
  datatype DeleteReply = DeleteThrew | DeleteNotOk(status: int) | DeleteOk

  /** The list, the tokens and the sign-in count: what a list request can
      change. */
  datatype ListState = ListState(emails: seq<Mail.Email>, nextPageToken: Option<string>, currentPageToken: Option<string>, signIns: nat)

  /** The effect of the list endpoint's answer: a success replaces the list
      (no list is an empty one), stores the next token when it is truthy and
      makes the requested token current; a 401 asks for a new sign-in; any
      other failure leaves everything as it was. */
  function Received(s: ListState, reply: ListReply, pageToken: Option<string>): (r: ListState)
    ensures reply.ListOk? ==>
              && r.emails == (if reply.emails.Some? then reply.emails.value else [])
              && (r.nextPageToken.Some? <==> Truthy(reply.nextPageToken))
              && (r.nextPageToken.Some? ==> r.nextPageToken == reply.nextPageToken)
              && r.currentPageToken == pageToken && r.signIns == s.signIns
    ensures reply.ListNotOk? ==> r == s.(signIns := s.signIns + if reply.status == 401 then 1 else 0)
    ensures reply.ListThrew? ==> r == s
  {
    match reply
    case ListOk(es, next) => ListState(if es.Some? then es.value else [], if Truthy(next) then next else None, pageToken, s.signIns)
    case ListNotOk(code) => if code == 401 then s.(signIns := s.signIns + 1) else s
    case ListThrew => s
  }

  class Page {
    var status: SessionStatus
    var emails: seq<Mail.Email>
    var isLoadingEmails: bool
    var nextPageToken: Option<string>
    var prevPageTokens: seq<string>
    var currentPageToken: Option<string>
    var filtersState: Option<Filters>
    var selectedEmails: seq<string>
    var chatbotAction: Chat.Action
    var currentEmail: Option<Mail.Email>
    var leftWidth: int
    var resizing: bool
    /** The query strings of the list requests sent so far. */
    var requests: seq<seq<Param>>
    /** The id lists of the delete requests sent so far. */
    var deletions: seq<seq<string>>
    /** How many times the page sent the user to sign in again. */
    var signIns: nat

    constructor (status: SessionStatus)
      ensures this.status == status && emails == [] && isLoadingEmails
      ensures nextPageToken.None? && prevPageTokens == [] && currentPageToken.None? && filtersState.None?
      ensures selectedEmails == [] && chatbotAction == Chat.Action(None, []) && currentEmail.None?
      ensures leftWidth == 50 && !resizing && SplitterInRange()
      ensures requests == [] && deletions == [] && signIns == 0
    {
      this.status := status;
      emails, isLoadingEmails := [], true;
      nextPageToken, prevPageTokens, currentPageToken, filtersState := None, [], None, None;
      selectedEmails, chatbotAction, currentEmail := [], Chat.Action(None, []), None;
      leftWidth, resizing := 50, false;
      requests, deletions, signIns := [], [], 0;
    }

    /** `hasNextPage`. */
    predicate HasNextPage()
      reads this
    {
      Truthy(nextPageToken)
    }

    /** `hasPrevPage`. */
    predicate HasPrevPage()
      reads this
    {
      |prevPageTokens| > 0
    }

    /** The part of the page a list request can change. */
    function Listing(): ListState
      reads this
    {
      ListState(emails, nextPageToken, currentPageToken, signIns)
    }

    /** `fetchEmails`: without a session nothing happens; otherwise the list
        request goes out with the given filters (or the stored ones) and its
        answer is applied as `Received` says. */
    method FetchEmails(pageToken: Option<string>, filters: Option<Filters>, server: seq<Param> -> ListReply)
      modifies this`isLoadingEmails, this`emails, this`nextPageToken, this`currentPageToken, this`signIns, this`requests
      ensures status != Authenticated ==> unchanged(this)
      ensures old(status) == Authenticated ==>
                var params := ParamsFor(if filters.Some? then filters else old(filtersState), pageToken);
                && requests == old(requests) + [params]
                && !isLoadingEmails
                && Listing() == Received(old(Listing()), server(params), pageToken)
    {
      if status != Authenticated {
        return;
      }
      isLoadingEmails := true;
      var f := if filters.Some? then filters else filtersState;
      var params := BuildParams(f, pageToken);
      requests := requests + [params];
      var reply := server(params);
      match reply {
        case ListOk(es, next) =>
          emails := if es.Some? then es.value else [];
          nextPageToken := if Truthy(next) then next else None;
          currentPageToken := pageToken;
        case ListNotOk(code) =>
          if code == 401 {
            signIns := signIns + 1;
          }
        case ListThrew =>
      }
      isLoadingEmails := false;
    }

    /** The initial load once the session is ready: the first page with the
        stored filters. */
    method SessionReady(server: seq<Param> -> ListReply)
      modifies this`status, this`isLoadingEmails, this`emails, this`nextPageToken, this`currentPageToken, this`signIns, this`requests
      ensures status == Authenticated && !isLoadingEmails
      ensures requests == old(requests) + [ParamsFor(old(filtersState), None)]
      ensures Listing() == Received(old(Listing()), server(ParamsFor(old(filtersState), None)), None)
    {
      status := Authenticated;
      FetchEmails(None, None, server);
    }

    /** `loadNextPage`: without a next token nothing happens; otherwise the
        current token (`""` for the first page) is pushed and the next page
        is fetched and applied. */
    method LoadNextPage(server: seq<Param> -> ListReply)
      modifies this`prevPageTokens, this`isLoadingEmails, this`emails, this`nextPageToken, this`currentPageToken, this`signIns, this`requests
      ensures !old(HasNextPage()) ==> unchanged(this)
      ensures old(HasNextPage()) ==> prevPageTokens == old(prevPageTokens) + [Or(old(currentPageToken), "")]
      ensures old(HasNextPage()) && status == Authenticated ==>
                var params := ParamsFor(filtersState, old(nextPageToken));
                && requests == old(requests) + [params]
                && !isLoadingEmails
                && Listing() == Received(old(Listing()), server(params), old(nextPageToken))
      ensures status != Authenticated ==>
                unchanged(this`requests, this`isLoadingEmails, this`emails, this`nextPageToken, this`currentPageToken, this`signIns)
    {
      if !Truthy(nextPageToken) {
        return;
      }
      prevPageTokens := prevPageTokens + [Or(currentPageToken, "")];
      FetchEmails(nextPageToken, None, server);
    }

    /** `loadPrevPage`: on an empty stack nothing happens; otherwise the last
        token is popped and its page fetched and applied, `""` standing for
        the first page. */
    method LoadPrevPage(server: seq<Param> -> ListReply)
      modifies this`prevPageTokens, this`isLoadingEmails, this`emails, this`nextPageToken, this`currentPageToken, this`signIns, this`requests
      ensures !old(HasPrevPage()) ==> unchanged(this)
      ensures old(HasPrevPage()) ==> prevPageTokens == old(prevPageTokens)[..|old(prevPageTokens)| - 1]
      ensures old(HasPrevPage()) && status == Authenticated ==>
                var token := Present(old(prevPageTokens)[|old(prevPageTokens)| - 1]);
                var params := ParamsFor(filtersState, token);
                && requests == old(requests) + [params]
                && !isLoadingEmails
                && Listing() == Received(old(Listing()), server(params), token)
      ensures status != Authenticated ==>
                unchanged(this`requests, this`isLoadingEmails, this`emails, this`nextPageToken, this`currentPageToken, this`signIns)
    {
      var copy := prevPageTokens;
      if |copy| == 0 {
        return;
      }
      var prev := copy[|copy| - 1];
      copy := copy[..|copy| - 1];
      prevPageTokens := copy;
      FetchEmails(if prev != "" then Some(prev) else None, None, server);
    }

    /** `applyFilters`: the filters are stored, paging starts over, and the
        first page is fetched with them and applied. */
    method ApplyFilters(filters: Filters, server: seq<Param> -> ListReply)
      modifies this`filtersState, this`prevPageTokens, this`isLoadingEmails, this`emails, this`nextPageToken, this`currentPageToken, this`signIns, this`requests
      ensures filtersState == Some(filters) && prevPageTokens == [] && !HasPrevPage()
      ensures status != Authenticated ==>
                nextPageToken.None? && currentPageToken.None?
                && unchanged(this`requests, this`isLoadingEmails, this`emails, this`signIns)
      ensures status == Authenticated ==>
                var params := ParamsFor(Some(filters), None);
                && requests == old(requests) + [params]
                && !isLoadingEmails
                && Listing() == Received(old(Listing()).(nextPageToken := None, currentPageToken := None), server(params), None)
    {
      filtersState := Some(filters);
      prevPageTokens := [];
      currentPageToken := None;
      nextPageToken := None;
      FetchEmails(None, Some(filters), server);
    }

    /** `handleEmailsSelect`. */
    method EmailsSelect(ids: seq<string>)
      modifies this`selectedEmails
      ensures selectedEmails == ids
    {
      selectedEmails := ids;
    }

    /** `handleEmailClick`. */
    method EmailClick(e: Mail.Email)
      modifies this`currentEmail
      ensures currentEmail == Some(e)
    {
      currentEmail := Some(e);
    }

    /** The summary, reply, planning and archive requests: the chatbot gets
        the action with the completed e-mails, in their order. */
    method RequestAction(kind: Chat.ActionKind, selected: seq<Mail.Email>, details: string -> Option<Mail.Details>)
      modifies this`chatbotAction
      ensures chatbotAction == Chat.Action(Some(kind), FullEmails(selected, details))
    {
      chatbotAction := Chat.Action(Some(kind), FullEmails(selected, details));
    }

    /** `onActionComplete`. */
    method ActionComplete()
      modifies this`chatbotAction
      ensures chatbotAction == Chat.Action(None, [])
    {
      chatbotAction := Chat.Action(None, []);
    }

    /** `handleDeleteRequest`: the ids go out; on success the selection and
        the open e-mail are cleared and the current page is fetched again and
        applied; a 401 sends the user to sign in; any other failure changes
        nothing. */
    method DeleteRequest(selected: seq<Mail.Email>, deleteReply: seq<string> -> DeleteReply, server: seq<Param> -> ListReply)
      modifies this`deletions, this`selectedEmails, this`currentEmail
      modifies this`isLoadingEmails, this`emails, this`nextPageToken, this`currentPageToken, this`signIns, this`requests
      ensures |deletions| == |old(deletions)| + 1 && deletions[..|old(deletions)|] == old(deletions)
      ensures |deletions[|deletions| - 1]| == |selected|
      ensures forall i :: 0 <= i < |selected| ==> deletions[|deletions| - 1][i] == selected[i].id
      ensures var ids := deletions[|deletions| - 1];
              match deleteReply(ids)
              case DeleteOk =>
                selectedEmails == [] && currentEmail.None?
                && (status == Authenticated ==> Refetched(old(Listing()), old(requests), server))
                && (status != Authenticated ==> Listing() == old(Listing()) && requests == old(requests))
              case DeleteNotOk(code) =>
                unchanged(this`selectedEmails, this`currentEmail, this`requests, this`isLoadingEmails)
                && Listing() == old(Listing()).(signIns := old(signIns) + if code == 401 then 1 else 0)
              case DeleteThrew =>
                unchanged(this`selectedEmails, this`currentEmail, this`requests, this`isLoadingEmails)
                && Listing() == old(Listing())
    {
      var ids := seq(|selected|, i requires 0 <= i < |selected| => selected[i].id);
      deletions := deletions + [ids];
      match deleteReply(ids) {
        case DeleteNotOk(code) =>
          if code == 401 {
            signIns := signIns + 1;
          }
        case DeleteThrew =>
        case DeleteOk =>
          selectedEmails := [];
          currentEmail := None;
          FetchEmails(currentPageToken, None, server);
      }
    }

    /** The current page fetched again after `before`: one more request for
        it with the stored filters, and its answer applied. */
    predicate Refetched(before: ListState, earlier: seq<seq<Param>>, server: seq<Param> -> ListReply)
      reads this
    {
      var params := ParamsFor(filtersState, before.currentPageToken);
      && requests == earlier + [params]
      && !isLoadingEmails
      && Listing() == Received(before, server(params), before.currentPageToken)
    }

    method SplitterDown()
      modifies this`resizing
      ensures resizing
    {
      resizing := true;
    }

    method MouseUp()
      modifies this`resizing
      ensures !resizing
    {
      resizing := false;
    }

    /** The mouse moved to the rounded percentage `pct` of the container:
        while resizing, the left pane takes it, clamped to [25, 75]. */
    method MouseMove(pct: int)
      modifies this`leftWidth
      ensures resizing ==> leftWidth == Clamp(pct)
      ensures !resizing ==> leftWidth == old(leftWidth)
      ensures old(SplitterInRange()) ==> SplitterInRange()
    {
      if !resizing {
        return;
      }
      leftWidth := Clamp(pct);
    }

    /** Both panes stay between a quarter and three quarters of the width. */
    predicate SplitterInRange()
      reads this
    {
      25 <= leftWidth <= 75
    }
  }

  /** Paging forward and straight back restores the token stack and fetches
      the page that was current before, `""` and `null` both standing for the
      first page. */
  method NextThenPrev(page: Page, next: seq<Param> -> ListReply, back: seq<Param> -> ListReply)
    requires page.HasNextPage() && page.status == Authenticated
    modifies page
    ensures page.prevPageTokens == old(page.prevPageTokens)
    ensures page.filtersState == old(page.filtersState)
    ensures page.requests == old(page.requests)
                           + [ParamsFor(old(page.filtersState), old(page.nextPageToken)),
                              ParamsFor(old(page.filtersState), if Truthy(old(page.currentPageToken)) then old(page.currentPageToken) else None)]
  {
    page.LoadNextPage(next);
    page.LoadPrevPage(back);
    assert (old(page.prevPageTokens) + [Or(old(page.currentPageToken), "")])[..|old(page.prevPageTokens)|] == old(page.prevPageTokens);
  }
}
