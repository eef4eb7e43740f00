/** The inbox list of components/email-interface.tsx: the search filter, the
    selection the list reports to its parent, the batch handlers, the delete
    confirmation and the single-email view. */
module EmailList {
  import opened JsText
  import opened Mail

  // ---------------------------------------------------------------------------
  // Search
  // ---------------------------------------------------------------------------

  /** The search test: the lower-cased sender or subject contains the
      lower-cased query. */
  predicate Matches(e: Email, q: string) {
    Contains(ToLower(e.sender), ToLower(q)) || Contains(ToLower(e.subject), ToLower(q))
  }

  /** `filteredEmails`: the e-mails that match, in list order. */
  function Filtered(es: seq<Email>, q: string): (r: seq<Email>)
    ensures |r| <= |es|
    ensures forall i :: 0 <= i < |r| ==> Matches(r[i], q) && r[i] in es
  {
    if es == [] then []
    else
      var init := Filtered(es[..|es| - 1], q);
      var last := es[|es| - 1];
      assert forall e :: e in es[..|es| - 1] ==> e in es;
      if Matches(last, q) then init + [last] else init
  }

  lemma {:induction false} FilteredConcat(a: seq<Email>, b: seq<Email>, q: string)
    ensures Filtered(a + b, q) == Filtered(a, q) + Filtered(b, q)
    decreases |b|
  {
    if b == [] {
      assert a + b == a;
    } else {
      var init := b[..|b| - 1];
      assert (a + b)[..|a + b| - 1] == a + init;
      FilteredConcat(a, init, q);
    }
  }

  /** An e-mail is kept exactly when it is in the list and matches. */
  lemma {:induction false} FilteredMember(es: seq<Email>, q: string, e: Email)
    ensures e in Filtered(es, q) <==> e in es && Matches(e, q)
  {
    if es != [] {
      var init := es[..|es| - 1];
      assert es == init + [es[|es| - 1]];
      FilteredMember(init, q, e);
    }
  }

  lemma EmptyContained(s: string)
    ensures Contains(s, "")
  {
    assert s[..0] == "";
  }

  /** The empty search keeps every e-mail. */
  lemma {:induction false} EmptyQueryKeepsAll(es: seq<Email>)
    ensures Filtered(es, "") == es
  {
    if es != [] {
      var init := es[..|es| - 1];
      EmptyQueryKeepsAll(init);
      assert ToLower("") == "";
      EmptyContained(ToLower(es[|es| - 1].sender));
      assert es == init + [es[|es| - 1]];
    }
  }

  lemma LowerTwice(s: string)
    ensures ToLower(ToLower(s)) == ToLower(s)
  {
  }

  /** The search ignores the case of the query. */
  lemma {:induction false} FilteredIgnoresCase(es: seq<Email>, q: string)
    ensures Filtered(es, ToLower(q)) == Filtered(es, q)
  {
    if es != [] {
      LowerTwice(q);
      FilteredIgnoresCase(es[..|es| - 1], q);
    }
  }

  // ---------------------------------------------------------------------------
  // Selection
  // ---------------------------------------------------------------------------

  /** `handleSelectEmail`: a selected id is dropped, another is appended. */
  function Toggled(sel: seq<string>, id: string): (r: seq<string>)
    ensures id in sel ==> id !in r && |r| < |sel|
    ensures id !in sel ==> r == sel + [id]
  {
    if id in sel then
      WithoutShorter(sel, id);
      Without(sel, id)
    else sel + [id]
  }

  /** Toggling flips the given id and leaves every other id as it was. */
  lemma ToggledMember(sel: seq<string>, id: string, x: string)
    ensures x == id ==> (x in Toggled(sel, id) <==> x !in sel)
    ensures x != id ==> (x in Toggled(sel, id) <==> x in sel)
  {
    if id in sel {
      WithoutMember(sel, id, x);
    }
  }

  /** Toggling an unselected id twice gives the selection back. */
  lemma ToggleTwice(sel: seq<string>, id: string)
    requires id !in sel
    ensures Toggled(Toggled(sel, id), id) == sel
  {
    var t := sel + [id];
    assert t[..|t| - 1] == sel;
    WithoutAbsent(sel, id);
  }

  /** `filteredEmails.map(e => e.id)`. */
  function Ids(es: seq<Email>): (r: seq<string>)
    ensures |r| == |es|
    ensures forall i :: 0 <= i < |es| ==> r[i] == es[i].id
  {
    seq(|es|, i requires 0 <= i < |es| => es[i].id)
  }

  /** `handleSelectAll`: clears when the selection has as many entries as the
      filtered list, otherwise selects the filtered ids in list order. */
  function SelectAll(sel: seq<string>, filtered: seq<Email>): (r: seq<string>)
    ensures |sel| == |filtered| ==> r == []
    ensures |sel| != |filtered| ==> r == Ids(filtered)
  {
    if |sel| == |filtered| then [] else Ids(filtered)
  }

  /** Select-all twice on a non-empty list with a partial selection clears
      it again; on a selection as long as the list it first clears and then
      selects every filtered id. */
  lemma SelectAllTwice(sel: seq<string>, filtered: seq<Email>)
    requires filtered != []
    ensures |sel| != |filtered| ==> SelectAll(SelectAll(sel, filtered), filtered) == []
    ensures |sel| == |filtered| ==> SelectAll(SelectAll(sel, filtered), filtered) == Ids(filtered)
  {
  }

  /** The test compares counts only, so a selection of as many ids as the
      list clears even when none of them is in the list. */
  lemma SelectAllCountsOnly(filtered: seq<Email>, sel: seq<string>)
    requires |sel| == |filtered|
    requires forall i :: 0 <= i < |sel| ==> sel[i] !in Ids(filtered)
    ensures SelectAll(sel, filtered) == []
  {
  }

  /** `emails.filter(e => selectedEmails.includes(e.id))`: the selected
      e-mails in list order. */
  function Selected(es: seq<Email>, sel: seq<string>): (r: seq<Email>)
    ensures |r| <= |es|
    ensures forall i :: 0 <= i < |r| ==> r[i].id in sel && r[i] in es
  {
    if es == [] then []
    else
      var init := Selected(es[..|es| - 1], sel);
      var last := es[|es| - 1];
      assert forall e :: e in es[..|es| - 1] ==> e in es;
      if last.id in sel then init + [last] else init
  }

  lemma {:induction false} SelectedMember(es: seq<Email>, sel: seq<string>, e: Email)
    ensures e in Selected(es, sel) <==> e in es && e.id in sel
  {
    if es != [] {
      var init := es[..|es| - 1];
      assert es == init + [es[|es| - 1]];
      SelectedMember(init, sel, e);
    }
  }

  /** The order (and repetition) of the selected ids does not matter: only
      which ids are selected does. */
  lemma {:induction false} SelectedIgnoresOrder(es: seq<Email>, s: seq<string>, t: seq<string>)
    requires forall x :: x in s <==> x in t
    ensures Selected(es, s) == Selected(es, t)
  {
    if es != [] {
      SelectedIgnoresOrder(es[..|es| - 1], s, t);
    }
  }

  lemma {:induction false} SelectedConcat(a: seq<Email>, b: seq<Email>, sel: seq<string>)
    ensures Selected(a + b, sel) == Selected(a, sel) + Selected(b, sel)
    decreases |b|
  {
    if b == [] {
      assert a + b == a;
    } else {
      var init := b[..|b| - 1];
      assert (a + b)[..|a + b| - 1] == a + init;
      SelectedConcat(a, init, sel);
    }
  }

  // ---------------------------------------------------------------------------
  // The viewed e-mail
  // ---------------------------------------------------------------------------

  /** The merge of `handleViewEmail`: the fetched body, attachments and sender
      when truthy (an attachments array always is), else the old values. */
  function Viewed(e: Email, d: Details): (r: Email)
    ensures r.(content := e.content, attachments := e.attachments, sender := e.sender) == e
    ensures r.content == Or(d.body, e.content)
    ensures r.sender == Or(d.from, e.sender)
    ensures r.attachments == if d.attachments.Some? then d.attachments else e.attachments
  {
    e.(content := Or(d.body, e.content),
       attachments := if d.attachments.Some? then d.attachments else e.attachments,
       sender := Or(d.from, e.sender))
  }

  /** Applying the same answer twice is applying it once. */
  lemma ViewedIdempotent(e: Email, d: Details)
    ensures Viewed(Viewed(e, d), d) == Viewed(e, d)
  {
  }

  // ---------------------------------------------------------------------------
  // The component
  // ---------------------------------------------------------------------------

  /** A call from the list to one of its parent's callbacks. */
  datatype Notice =
    | SelectionChanged(ids: seq<string>)
    | SummaryRequested(emails: seq<Email>)
    | ReplyRequested(emails: seq<Email>)
    | DeleteRequested(emails: seq<Email>)
    | ArchiverRequested(emails: seq<Email>)
    | EmailClicked(email: Email)

  class Inbox {
    /** The props the list is rendered with. */
    const emails: seq<Email>
    const selectedEmails: seq<string>
    const hasDeleteHandler: bool
    const hasArchiverHandler: bool
    const hasClickHandler: bool
    /** Its own state. */
    var searchQuery: string
    var viewingEmail: Option<Email>
    var isViewingEmailLoading: bool
    var deleteDialogOpen: bool
    var pendingDelete: seq<Email>
    /** The callbacks called so far, in order. */
    var notices: seq<Notice>

    constructor (emails: seq<Email>, selectedEmails: seq<string>, hasDelete: bool, hasArchiver: bool, hasClick: bool)
      ensures this.emails == emails && this.selectedEmails == selectedEmails
      ensures hasDeleteHandler == hasDelete && hasArchiverHandler == hasArchiver && hasClickHandler == hasClick
      ensures searchQuery == "" && viewingEmail == None && !isViewingEmailLoading
      ensures !deleteDialogOpen && pendingDelete == [] && notices == []
    {
      this.emails, this.selectedEmails := emails, selectedEmails;
      hasDeleteHandler, hasArchiverHandler, hasClickHandler := hasDelete, hasArchiver, hasClick;
      searchQuery, viewingEmail, isViewingEmailLoading := "", None, false;
      deleteDialogOpen, pendingDelete, notices := false, [], [];
    }

    function FilteredEmails(): (r: seq<Email>)
      reads this
      ensures forall e :: e in r <==> e in emails && Matches(e, searchQuery)
    {
      forall e ensures e in Filtered(emails, searchQuery) <==> e in emails && Matches(e, searchQuery) {
        FilteredMember(emails, searchQuery, e);
      }
      Filtered(emails, searchQuery)
    }

    method SetSearch(q: string)
      modifies this`searchQuery
      ensures searchQuery == q
    {
      searchQuery := q;
    }

    method SelectEmail(id: string)
      modifies this`notices
      ensures notices == old(notices) + [SelectionChanged(Toggled(selectedEmails, id))]
    {
      notices := notices + [SelectionChanged(Toggled(selectedEmails, id))];
    }

    method SelectAllToggle()
      modifies this`notices
      ensures notices == old(notices) + [SelectionChanged(SelectAll(selectedEmails, FilteredEmails()))]
    {
      notices := notices + [SelectionChanged(SelectAll(selectedEmails, FilteredEmails()))];
    }

    method BatchSummary()
      modifies this`notices
      ensures notices == old(notices) + [SummaryRequested(Selected(emails, selectedEmails))]
    {
      notices := notices + [SummaryRequested(Selected(emails, selectedEmails))];
    }

    method BatchReply()
      modifies this`notices
      ensures notices == old(notices) + [ReplyRequested(Selected(emails, selectedEmails))]
    {
      notices := notices + [ReplyRequested(Selected(emails, selectedEmails))];
    }

    /** Opens the confirmation for the selected e-mails; without a delete
        handler nothing happens. */
    method BatchDelete()
      modifies this`pendingDelete, this`deleteDialogOpen
      ensures hasDeleteHandler ==> pendingDelete == Selected(emails, selectedEmails) && deleteDialogOpen
      ensures !hasDeleteHandler ==> pendingDelete == old(pendingDelete) && deleteDialogOpen == old(deleteDialogOpen)
    {
      var selected := Selected(emails, selectedEmails);
      if hasDeleteHandler {
        pendingDelete := selected;
        deleteDialogOpen := true;
      }
    }

    method BatchArchiver()
      modifies this`notices
      ensures hasArchiverHandler ==> notices == old(notices) + [ArchiverRequested(Selected(emails, selectedEmails))]
      ensures !hasArchiverHandler ==> notices == old(notices)
    {
      var selected := Selected(emails, selectedEmails);
      if hasArchiverHandler {
        notices := notices + [ArchiverRequested(selected)];
      }
    }

    /** `handleConfirmDelete`: closes the dialog, hands the pending e-mails
        to the parent and empties the pending list. */
    method ConfirmDelete()
      modifies this`pendingDelete, this`deleteDialogOpen, this`notices
      ensures hasDeleteHandler ==> !deleteDialogOpen && pendingDelete == []
      ensures hasDeleteHandler ==> notices == old(notices) + [DeleteRequested(old(pendingDelete))]
      ensures !hasDeleteHandler ==>
                deleteDialogOpen == old(deleteDialogOpen) && pendingDelete == old(pendingDelete) && notices == old(notices)
    {
      if !hasDeleteHandler {
        return;
      }
      deleteDialogOpen := false;
      notices := notices + [DeleteRequested(pendingDelete)];
      pendingDelete := [];
    }

    /** The dialog's `onOpenChange` (its cancel button closes it). */
    method DialogOpenChange(open: bool)
      modifies this`deleteDialogOpen
      ensures deleteDialogOpen == open
    {
      deleteDialogOpen := open;
    }

    /** The synchronous start of `handleViewEmail`: show the e-mail as listed
        and tell the parent. */
    method ViewEmail(email: Email)
      modifies this`viewingEmail, this`isViewingEmailLoading, this`notices
      ensures viewingEmail == Some(email) && isViewingEmailLoading
      ensures hasClickHandler ==> notices == old(notices) + [EmailClicked(email)]
      ensures !hasClickHandler ==> notices == old(notices)
    {
      viewingEmail := Some(email);
      isViewingEmailLoading := true;
      if hasClickHandler {
        notices := notices + [EmailClicked(email)];
      }
    }

    /** The end of `handleViewEmail` for `email`: `fetched` is the detail
        answer, `None` when the request failed. The merge is applied to the
        e-mail on screen, or to `email` when the view has been closed. */
    method DetailsArrived(email: Email, fetched: Option<Details>)
      modifies this`viewingEmail, this`isViewingEmailLoading
      ensures !isViewingEmailLoading
      ensures fetched.None? ==> viewingEmail == old(viewingEmail)
      ensures fetched.Some? && old(viewingEmail).Some? ==> viewingEmail == Some(Viewed(old(viewingEmail).value, fetched.value))
      ensures fetched.Some? && old(viewingEmail).None? ==> viewingEmail == Some(Viewed(email, fetched.value))
    {
      if fetched.Some? {
        var base := if viewingEmail.Some? then viewingEmail.value else email;
        viewingEmail := Some(Viewed(base, fetched.value));
      }
      isViewingEmailLoading := false;
    }

    /** The back and close buttons of the single view. */
    method CloseView()
      modifies this`viewingEmail
      ensures viewingEmail == None
    {
      viewingEmail := None;
    }

    /** The action buttons of the single view act on `[viewingEmail]`. */
    method ViewSummary()
      requires viewingEmail.Some?
      modifies this`notices
      ensures notices == old(notices) + [SummaryRequested([viewingEmail.value])]
    {
      notices := notices + [SummaryRequested([viewingEmail.value])];
    }

    method ViewReply()
      requires viewingEmail.Some?
      modifies this`notices
      ensures notices == old(notices) + [ReplyRequested([viewingEmail.value])]
    {
      notices := notices + [ReplyRequested([viewingEmail.value])];
    }

    method ViewDelete()
      requires viewingEmail.Some?
      modifies this`pendingDelete, this`deleteDialogOpen
      ensures hasDeleteHandler ==> pendingDelete == [viewingEmail.value] && deleteDialogOpen
      ensures !hasDeleteHandler ==> pendingDelete == old(pendingDelete) && deleteDialogOpen == old(deleteDialogOpen)
    {
      if hasDeleteHandler {
        pendingDelete := [viewingEmail.value];
        deleteDialogOpen := true;
      }
    }

    method ViewArchiver()
      requires viewingEmail.Some?
      modifies this`notices
      ensures hasArchiverHandler ==> notices == old(notices) + [ArchiverRequested([viewingEmail.value])]
      ensures !hasArchiverHandler ==> notices == old(notices)
    {
      if hasArchiverHandler {
        notices := notices + [ArchiverRequested([viewingEmail.value])];
      }
    }
  }

  /** Batch delete then confirm hands exactly the selected e-mails, in list
      order, to the parent and leaves the dialog closed and nothing pending. */
  method DeleteSelected(inbox: Inbox)
    requires inbox.hasDeleteHandler
    modifies inbox`pendingDelete, inbox`deleteDialogOpen, inbox`notices
    ensures inbox.notices == old(inbox.notices) + [DeleteRequested(Selected(inbox.emails, inbox.selectedEmails))]
    ensures !inbox.deleteDialogOpen && inbox.pendingDelete == []
  {
    inbox.BatchDelete();
    inbox.ConfirmDelete();
  }

  /** Opening an e-mail and receiving its details shows the merged e-mail
      and ends the loading state. */
  method OpenEmail(inbox: Inbox, email: Email, fetched: Details)
    modifies inbox`viewingEmail, inbox`isViewingEmailLoading, inbox`notices
    ensures inbox.viewingEmail == Some(Viewed(email, fetched)) && !inbox.isViewingEmailLoading
    ensures inbox.viewingEmail.value.id == email.id
  {
    inbox.ViewEmail(email);
    inbox.DetailsArrived(email, Some(fetched));
  }
}
