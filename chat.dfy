/** The chatbot panel of components/chatbot-interface.tsx: one message history
    per e-mail, the history on screen, the action dispatcher that asks the AI
    relay for a summary, a reply, a meeting proposal or an archive folder, and
    the free-text chat. Every handler is one atomic step; the relay's answer is
    a parameter. */
module Chat {
  import opened JsText
  import Mail
  import Relay

  datatype Author = User | Bot

  /** A chat message; the display timestamp is not modelled. */
  datatype Message = Message(id: string, author: Author, content: string)

  datatype ActionKind = Summary | Reply | Planifier | Archiver

  /** A dispatched action: its kind (`null` when none) and the e-mails it is
      about. */
  datatype Action = Action(kind: Option<ActionKind>, emails: seq<Mail.Email>)

  /** What the call to the relay produced: `fetch` threw; the response was not
      usable (`!res.ok || !res.body`) with its error text (already
      `"No details"` when it could not be read); or a stream of chunks that
      either ended or failed with a message. */
  datatype Outcome =
    | Threw(message: string)
    | Refused(details: string)
    | Streamed(chunks: seq<Option<string>>, failure: Option<string>)

  const GreetingText: string :=
    "Bonjour! Je suis votre assistant intelligent Orange. Comment puis-je vous aider aujourd'hui?"

  const RefuseText: string :=
    "D'accord, je n'ai pas modifié votre calendrier. Souhaitez-vous que je vous propose d'autres créneaux?"

  function Greeting(): Message {
    Message("1", Bot, GreetingText)
  }

  /** The bot message that opens the history of an e-mail seen for the first
      time; it names the sender and the subject. */
  function Welcome(id: string, email: Mail.Email): (m: Message)
    ensures m.author == Bot && m.id == id
    ensures Contains(m.content, email.sender) && Contains(m.content, email.subject)
  {
    var before := "Vous consultez l'email de ";
    var middle := " concernant \"";
    var content := before + email.sender + middle + email.subject
      + "\". Comment puis-je vous aider avec cet email?";
    ContainsAfterPrefix(before, email.sender, middle + email.subject + "\". Comment puis-je vous aider avec cet email?");
    ContainsAfterPrefix(before + email.sender + middle, email.subject, "\". Comment puis-je vous aider avec cet email?");
    assert content == before + email.sender + (middle + email.subject + "\". Comment puis-je vous aider avec cet email?");
    Message(id, Bot, content)
  }

  /** A string occurs in any text that has it after some prefix. */
  lemma ContainsAfterPrefix(p: string, x: string, q: string)
    ensures Contains(p + x + q, x)
  {
    var s := p + x + q;
    assert s[|p|..|p| + |x|] == x;
    assert OccursAt(s, x, |p|);
    ContainsAt(s, x);
  }

  function MeetingAcceptedText(pending: string): string {
    "Parfait! J'ai ajouté la réunion à votre calendrier.\n\nDétails:\n" + pending
      + "\n\nVous recevrez une notification de confirmation par email."
  }

  const SummaryOneLead: string := "Please provide a concise summary (in French) of the following email:\n\nSubject: "
  const SummaryManyLead: string := "Please provide a concise summary (in French) of these "
  const SummaryManyTail: string := " emails. For each, give one-line summary and recommended action."
  const ReplyOneLead: string := "Draft a polite reply in French to this email from "
  const ReplyOneTail: string := "\". Keep it short and professional.\n\n"
  const ReplyManyLead: string := "Draft a short group reply in French addressing these "
  const PlanLead: string := "Analyze this email and propose a meeting time and brief agenda in French.\n\n"
  const ArchiveLead: string :=
    "Suggest an archive folder name and short tags (in French) for this email based on its content.\n\n"

  /** The prompt for an action: summary and reply have one form for a single
      e-mail and one for several; planning and archiving read only the first
      e-mail. */
  function ActionPrompt(kind: ActionKind, emails: seq<Mail.Email>): (r: string)
    requires |emails| >= 1
    ensures |r| > 0
  {
    var first := emails[0];
    var n := NatToString(|emails|);
    match kind
    case Summary =>
      if |emails| == 1 then
        assert |SummaryOneLead| > 0;
        SummaryOneLead + first.subject + "\nFrom: " + first.sender + "\n\n" + first.content
      else
        assert |SummaryManyLead| > 0;
        SummaryManyLead + n + SummaryManyTail
    case Reply =>
      if |emails| == 1 then
        assert |ReplyOneLead| > 0;
        ReplyOneLead + first.sender + " about \"" + first.subject + ReplyOneTail + first.content
      else
        assert |ReplyManyLead| > 0;
        ReplyManyLead + n + " emails."
    case Planifier =>
      assert |PlanLead| > 0;
      PlanLead + first.content
    case Archiver =>
      assert |ArchiveLead| > 0;
      ArchiveLead + first.content
  }

  /** Planning and archiving prompts ignore every e-mail but the first. */
  lemma FirstEmailOnly(kind: ActionKind, emails: seq<Mail.Email>)
    requires |emails| >= 1 && (kind == Planifier || kind == Archiver)
    ensures ActionPrompt(kind, emails) == ActionPrompt(kind, [emails[0]])
  {
  }

  /** The multi-e-mail summary and reply prompts depend only on how many
      e-mails there are. */
  lemma CountOnly(kind: ActionKind, a: seq<Mail.Email>, b: seq<Mail.Email>)
    requires (kind == Summary || kind == Reply) && |a| == |b| >= 2
    ensures ActionPrompt(kind, a) == ActionPrompt(kind, b)
  {
  }

  /** The part of the combined content for the `i`-th of several e-mails. */
  function Segment(i: nat, e: Mail.Email): string {
    "--- Email " + NatToString(i + 1) + " - From: " + e.sender + " Subject: " + e.subject + "\n\n" + e.content
  }

  function Segments(emails: seq<Mail.Email>): (r: seq<string>)
    ensures |r| == |emails|
    ensures forall i :: 0 <= i < |emails| ==> r[i] == Segment(i, emails[i])
  {
    seq(|emails|, i requires 0 <= i < |emails| => Segment(i, emails[i]))
  }

  /** The `emailContent` sent with an action: the e-mail's own content for one
      e-mail, the numbered segments separated by blank lines for several. */
  function CombinedContent(emails: seq<Mail.Email>): string
    requires |emails| >= 1
  {
    if |emails| == 1 then emails[0].content else Join(Segments(emails), "\n\n")
  }

  /** Several e-mails: the combined content opens with the first e-mail's
      header and ends with the last e-mail's content. */
  lemma CombinedContentBounds(emails: seq<Mail.Email>)
    requires |emails| >= 2
    ensures StartsWith(CombinedContent(emails), "--- Email 1 - From: " + emails[0].sender)
    ensures EndsWith(CombinedContent(emails), emails[|emails| - 1].content)
  {
    var parts := Segments(emails);
    JoinStartsWith(parts, "\n\n");
    JoinEndsWith(parts, "\n\n");
    FirstSegmentHeader(emails[0]);
    StartsWithTrans(CombinedContent(emails), parts[0], "--- Email 1 - From: " + emails[0].sender);
    SegmentEndsWithContent(|emails| - 1, emails[|emails| - 1]);
    EndsWithTrans(CombinedContent(emails), parts[|emails| - 1], emails[|emails| - 1].content);
  }

  lemma FirstSegmentHeader(e: Mail.Email)
    ensures StartsWith(Segment(0, e), "--- Email 1 - From: " + e.sender)
  {
    var h := "--- Email 1 - From: " + e.sender;
    assert NatToString(1) == "1";
    assert Segment(0, e) == h + (" Subject: " + e.subject + "\n\n" + e.content);
  }

  lemma SegmentEndsWithContent(i: nat, e: Mail.Email)
    ensures EndsWith(Segment(i, e), e.content)
  {
    var s := Segment(i, e);
    var p := "--- Email " + NatToString(i + 1) + " - From: " + e.sender + " Subject: " + e.subject + "\n\n";
    assert s == p + e.content;
    assert s[|p|..] == e.content;
  }

  /** The attachments an e-mail contributes, reduced to file name and data. */
  function OwnAttachments(e: Mail.Email): seq<Relay.Attachment> {
    if e.attachments.Some? then Forwarded(e.attachments.value) else []
  }

  function Forwarded(atts: seq<Mail.Attachment>): (r: seq<Relay.Attachment>)
    ensures |r| == |atts|
    ensures forall i :: 0 <= i < |atts| ==> r[i] == Relay.Attachment(atts[i].filename, atts[i].data)
  {
    seq(|atts|, i requires 0 <= i < |atts| => Relay.Attachment(atts[i].filename, atts[i].data))
  }

  /** The attachment list sent with an action: every e-mail's attachments, in
      e-mail order and, within an e-mail, in their own order. */
  method CollectAttachments(emails: seq<Mail.Email>) returns (atts: seq<Relay.Attachment>)
    ensures atts == FlatMap(emails, OwnAttachments)
  {
    atts := [];
    if |emails| == 1 {
      var e := emails[0];
      if e.attachments.Some? {
        var own := e.attachments.value;
        for k := 0 to |own|
          invariant atts == Forwarded(own[..k])
        {
          atts := atts + [Relay.Attachment(own[k].filename, own[k].data)];
          assert atts == Forwarded(own[..k + 1]);
        }
        assert own[..|own|] == own;
      }
      assert emails == [] + [e];
    } else {
      for j := 0 to |emails|
        invariant atts == FlatMap(emails[..j], OwnAttachments)
      {
        var e := emails[j];
        ghost var earlier := atts;
        if e.attachments.Some? {
          var own := e.attachments.value;
          for k := 0 to |own|
            invariant atts == earlier + Forwarded(own[..k])
          {
            atts := atts + [Relay.Attachment(own[k].filename, own[k].data)];
            assert Forwarded(own[..k + 1]) == Forwarded(own[..k]) + [Relay.Attachment(own[k].filename, own[k].data)];
          }
          assert own[..|own|] == own;
        }
        FlatMapSnoc(emails, j, OwnAttachments);
      }
      assert emails[..|emails|] == emails;
    }
  }

  /** The attachments of e-mail `i` appear after those of every earlier
      e-mail and before those of every later one. */
  lemma AttachmentsInEmailOrder(emails: seq<Mail.Email>, i: nat)
    requires i < |emails|
    ensures FlatMap(emails, OwnAttachments)
            == FlatMap(emails[..i], OwnAttachments) + OwnAttachments(emails[i]) + FlatMap(emails[i + 1..], OwnAttachments)
  {
    FlatMapAround(emails, i, OwnAttachments);
  }

  /** A streamed chunk lands in the last message; an empty history is left
      alone. */
  function AppendToLast(ms: seq<Message>, chunk: string): (r: seq<Message>)
    ensures |r| == |ms|
    ensures ms != [] ==>
              r[..|ms| - 1] == ms[..|ms| - 1] && r[|ms| - 1] == ms[|ms| - 1].(content := ms[|ms| - 1].content + chunk)
  {
    if ms == [] then ms
    else
      var last := ms[|ms| - 1];
      ms[..|ms| - 1] + [last.(content := last.content + chunk)]
  }

  /** Appending two chunks one after the other is appending their
      concatenation. */
  lemma AppendTwice(ms: seq<Message>, a: string, b: string)
    ensures AppendToLast(AppendToLast(ms, a), b) == AppendToLast(ms, a + b)
  {
    if ms != [] {
      var last := ms[|ms| - 1];
      assert last.content + a + b == last.content + (a + b);
    }
  }

  lemma AppendNothing(ms: seq<Message>)
    ensures AppendToLast(ms, "") == ms
  {
    if ms != [] {
      var last := ms[|ms| - 1];
      assert last.content + "" == last.content;
      assert ms == ms[..|ms| - 1] + [last];
    }
  }

  /** The error text shown in place of the answer. */
  function ErrorText(detail: string): string {
    "Erreur: " + detail
  }

  /** `prev.map((m, i) => i === prev.length - 1 ? {...m, content} : m)`. */
  function SetLastContent(ms: seq<Message>, content: string): (r: seq<Message>)
    ensures |r| == |ms|
    ensures ms != [] ==> r[..|ms| - 1] == ms[..|ms| - 1] && r[|ms| - 1] == ms[|ms| - 1].(content := content)
  {
    seq(|ms|, i requires 0 <= i < |ms| => if i == |ms| - 1 then ms[i].(content := content) else ms[i])
  }

  /** The history once the relay's answer has been received into its last
      message. */
  function Settle(ms: seq<Message>, outcome: Outcome): seq<Message> {
    match outcome
    case Threw(m) => SetLastContent(ms, ErrorText(m))
    case Refused(d) => SetLastContent(ms, ErrorText(d))
    case Streamed(chunks, None) => AppendToLast(ms, Relay.Decoded(chunks))
    case Streamed(chunks, Some(m)) => SetLastContent(AppendToLast(ms, Relay.Decoded(chunks)), ErrorText(m))
  }

  /** Receiving an answer touches only the last message, keeps its id and
      author, and leaves it holding either the streamed text after what it
      held or the error text. */
  lemma SettleTouchesOnlyLast(ms: seq<Message>, outcome: Outcome)
    requires ms != []
    ensures var r := Settle(ms, outcome);
            var last := ms[|ms| - 1];
            |r| == |ms| && r[..|ms| - 1] == ms[..|ms| - 1]
            && r[|ms| - 1].id == last.id && r[|ms| - 1].author == last.author
            && r[|ms| - 1].content == match outcome
                                      case Threw(m) => ErrorText(m)
                                      case Refused(d) => ErrorText(d)
                                      case Streamed(chunks, None) => last.content + Relay.Decoded(chunks)
                                      case Streamed(_, Some(m)) => ErrorText(m)
  {
    if outcome.Streamed? && outcome.failure.Some? {
      var a := AppendToLast(ms, Relay.Decoded(outcome.chunks));
      assert a[..|ms| - 1] == ms[..|ms| - 1];
    }
  }

  /** The request `runAction` sends for an action with a kind and at least
      one e-mail; it always carries a prompt. */
  method ActionRequest(kind: ActionKind, emails: seq<Mail.Email>) returns (req: Relay.Request)
    requires |emails| >= 1
    ensures req == Relay.Request(Some(ActionPrompt(kind, emails)), Some(CombinedContent(emails)),
                                 Relay.Attachments(FlatMap(emails, OwnAttachments)))
    ensures Relay.Admissible(req)
  {
    var prompt := ActionPrompt(kind, emails);
    var combined := CombinedContent(emails);
    var attachments := CollectAttachments(emails);
    req := Relay.Request(Some(prompt), Some(combined), Relay.Attachments(attachments));
  }

  class Chatbot {
    /** `emailConversations`: the stored history of each e-mail id. */
    var conversations: map<string, seq<Message>>
    var currentEmailId: Option<string>
    var messages: seq<Message>
    var inputValue: string
    var showMeetingPermission: bool
    var pendingMeetingAction: string
    /** How many times `onActionComplete` has been called. */
    var completions: nat

    constructor ()
      ensures conversations == map[] && currentEmailId == None && messages == [Greeting()]
      ensures inputValue == "" && !showMeetingPermission && pendingMeetingAction == "" && completions == 0
    {
      conversations := map[];
      currentEmailId := None;
      messages := [Greeting()];
      inputValue := "";
      showMeetingPermission := false;
      pendingMeetingAction := "";
      completions := 0;
    }

    /** The context-switch effect: a new current e-mail loads its stored
        history, or gets one welcome message which is stored under its id.
        The same e-mail again, or none, changes nothing. */
    method SwitchContext(current: Option<Mail.Email>, now: string)
      modifies this
      ensures current.None? || Some(current.value.id) == old(currentEmailId) ==>
                conversations == old(conversations) && currentEmailId == old(currentEmailId)
                && messages == old(messages)
      ensures current.Some? && Some(current.value.id) != old(currentEmailId) ==>
                var id := current.value.id;
                currentEmailId == Some(id)
                && (id in old(conversations) ==>
                      messages == old(conversations)[id] && conversations == old(conversations))
                && (id !in old(conversations) ==>
                      messages == [Welcome(now, current.value)]
                      && conversations == old(conversations)[id := [Welcome(now, current.value)]])
      ensures inputValue == old(inputValue) && showMeetingPermission == old(showMeetingPermission)
      ensures pendingMeetingAction == old(pendingMeetingAction) && completions == old(completions)
    {
      if current.Some? && Some(current.value.id) != currentEmailId {
        var id := current.value.id;
        currentEmailId := Some(id);
        if id in conversations {
          messages := conversations[id];
        } else {
          var welcome := Welcome(now, current.value);
          messages := [welcome];
          conversations := conversations[id := [welcome]];
        }
      }
    }

    /** The mirror effect: a non-empty history on screen is stored under the
        current id when that id is a non-empty string; no other id changes. */
    method Mirror()
      modifies this
      ensures currentEmailId.Some? && currentEmailId.value != "" && |messages| > 0 ==>
                conversations == old(conversations)[currentEmailId.value := messages]
      ensures !(currentEmailId.Some? && currentEmailId.value != "" && |messages| > 0) ==>
                conversations == old(conversations)
      ensures currentEmailId == old(currentEmailId) && messages == old(messages)
      ensures inputValue == old(inputValue) && showMeetingPermission == old(showMeetingPermission)
      ensures pendingMeetingAction == old(pendingMeetingAction) && completions == old(completions)
    {
      if currentEmailId.Some? && currentEmailId.value != "" && |messages| > 0 {
        conversations := conversations[currentEmailId.value := messages];
      }
    }

    /** The read loop: every chunk with a value is appended to the last
        message, so the last message gains the whole streamed text. */
    method StreamInto(chunks: seq<Option<string>>)
      modifies this
      ensures messages == AppendToLast(old(messages), Relay.Decoded(chunks))
      ensures conversations == old(conversations) && currentEmailId == old(currentEmailId)
      ensures inputValue == old(inputValue) && showMeetingPermission == old(showMeetingPermission)
      ensures pendingMeetingAction == old(pendingMeetingAction) && completions == old(completions)
    {
      AppendNothing(messages);
      assert chunks[..0] == [];
      for i := 0 to |chunks|
        invariant messages == AppendToLast(old(messages), Relay.Decoded(chunks[..i]))
        invariant conversations == old(conversations) && currentEmailId == old(currentEmailId)
        invariant inputValue == old(inputValue) && showMeetingPermission == old(showMeetingPermission)
        invariant pendingMeetingAction == old(pendingMeetingAction) && completions == old(completions)
      {
        Relay.DecodedSnoc(chunks, i);
        var value := chunks[i];
        if value.Some? {
          AppendTwice(old(messages), Relay.Decoded(chunks[..i]), value.value);
          messages := AppendToLast(messages, value.value);
        } else {
          assert Relay.Decoded(chunks[..i]) + "" == Relay.Decoded(chunks[..i]);
        }
      }
      assert chunks[..|chunks|] == chunks;
    }

    /** Receives the relay's answer into the last message. */
    method Receive(outcome: Outcome)
      modifies this
      ensures messages == Settle(old(messages), outcome)
      ensures conversations == old(conversations) && currentEmailId == old(currentEmailId)
      ensures inputValue == old(inputValue) && showMeetingPermission == old(showMeetingPermission)
      ensures pendingMeetingAction == old(pendingMeetingAction) && completions == old(completions)
    {
      match outcome {
        case Threw(m) =>
          messages := SetLastContent(messages, ErrorText(m));
        case Refused(d) =>
          messages := SetLastContent(messages, ErrorText(d));
        case Streamed(chunks, failure) =>
          StreamInto(chunks);
          if failure.Some? {
            messages := SetLastContent(messages, ErrorText(failure.value));
          }
      }
    }

    /** `runAction`: an action without a kind or without e-mails does nothing.
        Otherwise an empty bot message is appended, the prompt, the combined
        content and the attachments are sent to the relay, the answer is
        received into that message, and `onActionComplete` is called once. */
    method RunAction(action: Action, outcome: Outcome, now: string) returns (sent: Option<Relay.Request>)
      modifies this
      ensures action.kind.None? || |action.emails| == 0 ==>
                sent == None && messages == old(messages) && completions == old(completions)
      ensures action.kind.Some? && |action.emails| > 0 ==>
                sent == Some(Relay.Request(Some(ActionPrompt(action.kind.value, action.emails)),
                                           Some(CombinedContent(action.emails)),
                                           Relay.Attachments(FlatMap(action.emails, OwnAttachments))))
                && messages == Settle(old(messages) + [Message(now, Bot, "")], outcome)
                && completions == old(completions) + 1
      ensures sent.Some? ==> Relay.Admissible(sent.value)
      ensures conversations == old(conversations) && currentEmailId == old(currentEmailId)
      ensures inputValue == old(inputValue) && showMeetingPermission == old(showMeetingPermission)
      ensures pendingMeetingAction == old(pendingMeetingAction)
    {
      if action.kind.None? || |action.emails| == 0 {
        return None;
      }
      messages := messages + [Message(now, Bot, "")];
      var request := ActionRequest(action.kind.value, action.emails);
      sent := Some(request);
      Receive(outcome);
      completions := completions + 1;
    }

    /** `handleSendMessage`: a blank input does nothing. Otherwise the input
        becomes a user message, the input is cleared, an empty bot message is
        appended, and the input and the current e-mail's content are sent. */
    method SendMessage(current: Option<Mail.Email>, outcome: Outcome, now: string, later: string)
      returns (sent: Option<Relay.Request>)
      modifies this
      ensures IsBlank(old(inputValue)) ==>
                sent == None && messages == old(messages) && inputValue == old(inputValue)
      ensures !IsBlank(old(inputValue)) ==>
                sent == Some(Relay.Request(Some(old(inputValue)),
                                           if current.Some? then Some(current.value.content) else None,
                                           Relay.Attachments([])))
                && messages == Settle(old(messages) + [Message(now, User, old(inputValue)), Message(later, Bot, "")], outcome)
                && inputValue == ""
      ensures sent.Some? ==> Relay.Admissible(sent.value)
      ensures conversations == old(conversations) && currentEmailId == old(currentEmailId)
      ensures showMeetingPermission == old(showMeetingPermission)
      ensures pendingMeetingAction == old(pendingMeetingAction) && completions == old(completions)
    {
      var text := inputValue;
      if Trim(text) == "" {
        return None;
      }
      assert text != [];
      var content := if current.Some? then Some(current.value.content) else None;
      sent := Some(Relay.Request(Some(text), content, Relay.Attachments([])));
      messages := messages + [Message(now, User, text), Message(later, Bot, "")];
      inputValue := "";
      Receive(outcome);
    }

    /** Accepting the meeting proposal confirms it in a bot message and clears
        the proposal. */
    method MeetingAccept(now: string)
      modifies this
      ensures messages == old(messages) + [Message(now, Bot, MeetingAcceptedText(old(pendingMeetingAction)))]
      ensures !showMeetingPermission && pendingMeetingAction == ""
      ensures conversations == old(conversations) && currentEmailId == old(currentEmailId)
      ensures inputValue == old(inputValue) && completions == old(completions)
    {
      messages := messages + [Message(now, Bot, MeetingAcceptedText(pendingMeetingAction))];
      showMeetingPermission := false;
      pendingMeetingAction := "";
    }

    /** Refusing the meeting proposal answers with the fixed refusal and
        clears the proposal. */
    method MeetingRefuse(now: string)
      modifies this
      ensures messages == old(messages) + [Message(now, Bot, RefuseText)]
      ensures !showMeetingPermission && pendingMeetingAction == ""
      ensures conversations == old(conversations) && currentEmailId == old(currentEmailId)
      ensures inputValue == old(inputValue) && completions == old(completions)
    {
      messages := messages + [Message(now, Bot, RefuseText)];
      showMeetingPermission := false;
      pendingMeetingAction := "";
    }
  }

  /** Switching to an e-mail and then mirroring leaves the history on screen
      stored under the e-mail's id, and every other stored history as it was. */
  method SwitchThenMirror(bot: Chatbot, current: Mail.Email, now: string)
    requires current.id != "" && Some(current.id) != bot.currentEmailId
    modifies bot
    ensures bot.currentEmailId == Some(current.id)
    ensures current.id in bot.conversations && bot.conversations[current.id] == bot.messages
    ensures forall k :: k in old(bot.conversations) && k != current.id ==>
              k in bot.conversations && bot.conversations[k] == old(bot.conversations)[k]
  {
    bot.SwitchContext(Some(current), now);
    if |bot.messages| == 0 {
      assert current.id in old(bot.conversations) && old(bot.conversations)[current.id] == [];
    }
    bot.Mirror();
  }
}
