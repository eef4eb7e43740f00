/** The inbox endpoint of app/api/emails/route.ts: `GET` turns the filter
    parameters into a Gmail search query, lists the inbox and projects each
    message's metadata onto an e-mail record; `DELETE` validates the ids and
    deletes them. Gmail and the session are parameters. */
module EmailsRoute {
  import opened JsText
  import Mail

  // ---------------------------------------------------------------------------
  // Query string
  // ---------------------------------------------------------------------------

  /** The search parameters; each is `null` when absent. */
  datatype Params = Params(
    subject: Option<string>,
    contains: Option<string>,
    singleDate: Option<string>,
    dateStart: Option<string>,
    dateEnd: Option<string>,
    senders: Option<string>,
    pageToken: Option<string>)

  const BaseQuery: string := "-category:promotions -category:social"

  /** `xs.map(s => s.trim())`. */
  function TrimAll(xs: seq<string>): (r: seq<string>)
    ensures |r| == |xs|
    ensures forall i :: 0 <= i < |xs| ==> r[i] == Trim(xs[i])
  {
    seq(|xs|, i requires 0 <= i < |xs| => Trim(xs[i]))
  }

  /** `xs.filter(Boolean)` on strings: the non-empty ones, in order. */
  function NonEmpty(xs: seq<string>): (r: seq<string>)
    ensures |r| <= |xs|
    ensures forall i :: 0 <= i < |r| ==> r[i] != "" && r[i] in xs
    ensures forall x :: x in r <==> x in xs && x != ""
  {
    if xs == [] then []
    else
      var init := NonEmpty(xs[..|xs| - 1]);
      assert forall s :: s in xs[..|xs| - 1] ==> s in xs;
      if xs[|xs| - 1] == "" then init else init + [xs[|xs| - 1]]
  }

  lemma {:induction false} NonEmptyKeepsAll(xs: seq<string>)
    requires forall i :: 0 <= i < |xs| ==> xs[i] != ""
    ensures NonEmpty(xs) == xs
    decreases |xs|
  {
    if xs != [] {
      NonEmptyKeepsAll(xs[..|xs| - 1]);
      assert xs == xs[..|xs| - 1] + [xs[|xs| - 1]];
    }
  }

  /** The filter keeps the non-empty elements of each part, in order: in
      `"a,,b"` both `a` and `b` survive, and `a` comes first. */
  lemma {:induction false} NonEmptyConcat(a: seq<string>, b: seq<string>)
    ensures NonEmpty(a + b) == NonEmpty(a) + NonEmpty(b)
    decreases |b|
  {
    if b == [] {
      assert a + b == a;
    } else {
      var b' := b[..|b| - 1];
      assert (a + b)[..|a + b| - 1] == a + b';
      assert (a + b)[|a + b| - 1] == b[|b| - 1];
      NonEmptyConcat(a, b');
    }
  }

  /** A sender entry that survives the comma list unchanged. */
  predicate CleanSender(s: string) {
    s != "" && ',' !in s && !IsWhiteSpace(s[0]) && !IsWhiteSpace(s[|s| - 1])
  }

  /** `senders.split(",").map(s => s.trim()).filter(Boolean)`. */
  function SenderList(senders: string): (r: seq<string>)
    ensures forall i :: 0 <= i < |r| ==> r[i] != ""
  {
    NonEmpty(TrimAll(SplitOn(senders, ',')))
  }

  /** Every entry of the list is trimmed and impossible to split further. */
  lemma SenderListClean(senders: string)
    ensures forall i :: 0 <= i < |SenderList(senders)| ==> CleanSender(SenderList(senders)[i])
  {
    var pieces := SplitOn(senders, ',');
    SplitOnAvoids(senders, ',', ',');
    var trimmed := TrimAll(pieces);
    forall k | 0 <= k < |trimmed| && trimmed[k] != ""
      ensures CleanSender(trimmed[k])
    {
      CleanPiece(pieces[k]);
    }
    NonEmptyClean(trimmed);
  }

  /** The filter keeps only elements that were already clean senders, when
      every non-empty element is one. */
  lemma NonEmptyClean(xs: seq<string>)
    requires forall k :: 0 <= k < |xs| && xs[k] != "" ==> CleanSender(xs[k])
    ensures forall i :: 0 <= i < |NonEmpty(xs)| ==> CleanSender(NonEmpty(xs)[i])
  {
    var r := NonEmpty(xs);
    forall i | 0 <= i < |r|
      ensures CleanSender(r[i])
    {
      assert r[i] in xs;
      var k :| 0 <= k < |xs| && xs[k] == r[i];
    }
  }

  /** A comma-free piece that is not blank trims to a clean sender. */
  lemma CleanPiece(p: string)
    requires ',' !in p && Trim(p) != ""
    ensures CleanSender(Trim(p))
  {
    TrimOccursIn(p, ',');
  }

  /** A character absent from a string is absent from its trim. */
  lemma TrimOccursIn(s: string, c: char)
    requires c !in s
    ensures c !in Trim(s)
  {
    var r := Trim(s);
    var k :| OccursAt(s, r, k);
    OccurrenceAvoids(s, r, k, c);
  }

  lemma OccurrenceAvoids(s: string, sub: string, k: int, c: char)
    requires OccursAt(s, sub, k) && c !in s
    ensures c !in sub
  {
    forall j | 0 <= j < |sub|
      ensures sub[j] != c
    {
      assert sub[j] == s[k..k + |sub|][j] == s[k + j];
    }
  }

  lemma EmptySenderList()
    ensures SenderList("") == []
  {
    assert SplitOn("", ',') == [""];
    var t := TrimAll([""]);
    assert t == [""];
    assert t[..0] == [];
  }

  /** A comma-joined list of clean senders reads back as the same list. */
  lemma SenderListRoundTrip(list: seq<string>)
    requires forall i :: 0 <= i < |list| ==> CleanSender(list[i])
    ensures SenderList(Join(list, ",")) == list
  {
    if list == [] {
      EmptySenderList();
    } else {
      assert "," == [','];
      SplitJoin(list, ',');
      var pieces := SplitOn(Join(list, ","), ',');
      assert pieces == list;
      TrimAllClean(list);
      NonEmptyKeepsAll(list);
      assert SenderList(Join(list, ",")) == NonEmpty(TrimAll(pieces));
    }
  }

  lemma TrimAllClean(list: seq<string>)
    requires forall i :: 0 <= i < |list| ==> CleanSender(list[i])
    ensures TrimAll(list) == list
  {
    forall i | 0 <= i < |list|
      ensures Trim(list[i]) == list[i]
    {
      TrimTrimmed(list[i]);
    }
  }

  function FromTerms(list: seq<string>): (r: seq<string>)
    ensures |r| == |list|
    ensures forall i :: 0 <= i < |list| ==> r[i] == "from:" + list[i]
  {
    seq(|list|, i requires 0 <= i < |list| => "from:" + list[i])
  }

  /** The sender group: `(from:a OR from:b ...)` in list order, or nothing. */
  function SenderPart(senders: string): (r: seq<string>)
    ensures |r| <= 1
    ensures r != [] <==> SenderList(senders) != []
  {
    var list := SenderList(senders);
    if list == [] then [] else ["(" + Join(FromTerms(list), " OR ") + ")"]
  }

  /** A calendar date, as `YYYY-MM-DD` denotes it. */
  datatype Date = Date(year: nat, month: nat, day: nat)

  predicate IsLeapYear(y: nat) {
    (y % 4 == 0 && y % 100 != 0) || y % 400 == 0
  }

  function DaysInMonth(y: nat, m: nat): nat
    requires 1 <= m <= 12
  {
    if m == 2 then (if IsLeapYear(y) then 29 else 28)
    else if m == 4 || m == 6 || m == 9 || m == 11 then 30
    else 31
  }

  predicate ValidDate(d: Date) {
    1 <= d.month <= 12 && 1 <= d.day <= DaysInMonth(d.year, d.month)
  }

  predicate Earlier(a: Date, b: Date) {
    a.year < b.year
    || (a.year == b.year && a.month < b.month)
    || (a.year == b.year && a.month == b.month && a.day < b.day)
  }

  /** `d.setDate(d.getDate() + 1)`: the following calendar day. */
  function NextDay(d: Date): Date
    requires ValidDate(d)
  {
    if d.day < DaysInMonth(d.year, d.month) then Date(d.year, d.month, d.day + 1)
    else if d.month < 12 then Date(d.year, d.month + 1, 1)
    else Date(d.year + 1, 1, 1)
  }

  /** The next day is a valid date, later than `d`, and no valid date lies
      strictly between the two. */
  lemma NextDayIsSuccessor(d: Date)
    requires ValidDate(d)
    ensures ValidDate(NextDay(d)) && Earlier(d, NextDay(d))
    ensures forall e :: ValidDate(e) && Earlier(d, e) ==> !Earlier(e, NextDay(d))
  {
    forall e | ValidDate(e) && Earlier(d, e)
      ensures !Earlier(e, NextDay(d))
    {
      if d.day == DaysInMonth(d.year, d.month) && e.year == d.year && e.month == d.month {
        assert e.day <= d.day;
      }
    }
  }

  /** Two digits at `i` and `i + 1`. */
  function TwoDigits(s: string, i: nat): nat
    requires i + 1 < |s| && IsDigit(s[i]) && IsDigit(s[i + 1])
  {
    10 * DigitValue(s[i]) + DigitValue(s[i + 1])
  }

  predicate IsoShape(s: string) {
    |s| == 10 && s[4] == '-' && s[7] == '-'
    && IsDigit(s[0]) && IsDigit(s[1]) && IsDigit(s[2]) && IsDigit(s[3])
    && IsDigit(s[5]) && IsDigit(s[6]) && IsDigit(s[8]) && IsDigit(s[9])
  }

  /** The model's reading of `new Date(s)`: the date-only form `YYYY-MM-DD`
      with a real calendar date. Anything else, and any month or day out of
      range, is taken to be an invalid date; an engine that accepts other
      forms, or rolls an overflowing day such as `2023-02-30` into the next
      month, renders `before:` differently on such input. */
  function ParseIsoDate(s: string): (r: Option<Date>)
    ensures r.Some? ==> ValidDate(r.value)
  {
    if !IsoShape(s) then None
    else
      var d := Date(100 * TwoDigits(s, 0) + TwoDigits(s, 2), TwoDigits(s, 5), TwoDigits(s, 8));
      if ValidDate(d) then Some(d) else None
  }

  /** `${y}/${MM}/${DD}` as the route writes a `before:` date. */
  function SlashDate(d: Date): string {
    NatToString(d.year) + "/" + Pad2(d.month) + "/" + Pad2(d.day)
  }

  /** The `before:` operand: the day after the given date, or the text an
      invalid date renders as. */
  function DayAfter(s: string): string {
    match ParseIsoDate(s)
    case Some(d) => SlashDate(NextDay(d))
    case None => "NaN/NaN/NaN"
  }

  /** For a valid date from year 1000 on, the `after:` operand (the input with
      dashes turned into slashes) is exactly the route's own `YYYY/MM/DD`
      rendering of that date, the format of the `before:` operand. */
  lemma AfterMatchesBeforeFormat(s: string)
    requires ParseIsoDate(s).Some? && s[0] != '0'
    ensures ReplaceAll(s, '-', '/') == SlashDate(ParseIsoDate(s).value)
  {
    var d := ParseIsoDate(s).value;
    SlashDateDigits(s, d);
    IsoSlashes(s);
  }

  /** The route's rendering of a parsed date spells out the digits it was
      parsed from. */
  lemma SlashDateDigits(s: string, d: Date)
    requires IsoShape(s) && s[0] != '0'
    requires d == Date(100 * TwoDigits(s, 0) + TwoDigits(s, 2), TwoDigits(s, 5), TwoDigits(s, 8))
    ensures SlashDate(d) == [s[0], s[1], s[2], s[3], '/', s[5], s[6], '/', s[8], s[9]]
  {
    FourDigits(s[0], s[1], s[2], s[3]);
    Pad2Digits(s[5], s[6]);
    Pad2Digits(s[8], s[9]);
    assert d.year == 1000 * DigitValue(s[0]) + 100 * DigitValue(s[1]) + 10 * DigitValue(s[2]) + DigitValue(s[3]);
  }

  /** Turning the dashes of a `YYYY-MM-DD` text into slashes. */
  lemma IsoSlashes(s: string)
    requires IsoShape(s)
    ensures ReplaceAll(s, '-', '/') == [s[0], s[1], s[2], s[3], '/', s[5], s[6], '/', s[8], s[9]]
  {
  }

  /** The date terms: a single date wins over the range. */
  function DateParts(singleDate: string, dateStart: string, dateEnd: string): seq<string> {
    if singleDate != "" then
      ["after:" + ReplaceAll(singleDate, '-', '/'), "before:" + DayAfter(singleDate)]
    else
      (if dateStart != "" then ["after:" + ReplaceAll(dateStart, '-', '/')] else [])
      + (if dateEnd != "" then ["before:" + DayAfter(dateEnd)] else [])
  }

  function SubjectPart(subject: string): seq<string> {
    if subject != "" then ["subject:" + subject] else []
  }

  function ContainsPart(contains: string): seq<string> {
    if contains != "" then [contains] else []
  }

  /** The query terms in the order the route pushes them. */
  function QueryParts(p: Params): seq<string> {
    [BaseQuery]
      + SubjectPart(Or(p.subject, ""))
      + ContainsPart(Or(p.contains, ""))
      + (if Or(p.senders, "") != "" then SenderPart(Or(p.senders, "")) else [])
      + DateParts(Or(p.singleDate, ""), Or(p.dateStart, ""), Or(p.dateEnd, ""))
  }

  lemma EmptyRight<T>(h: seq<T>)
    ensures h + [] == h
  {
  }

  lemma PushTwo<T>(h: seq<T>, a: T, b: T)
    ensures h + [a] + [b] == h + [a, b]
  {
  }

  /** The search query of `GET`, built by pushing terms onto `qParts`. */
  method BuildQuery(p: Params) returns (q: string)
    ensures q == Join(QueryParts(p), " ")
  {
    var subject := Or(p.subject, "");
    var contains := Or(p.contains, "");
    var singleDate := Or(p.singleDate, "");
    var dateStart := Or(p.dateStart, "");
    var dateEnd := Or(p.dateEnd, "");
    var senders := Or(p.senders, "");
    var qParts := [BaseQuery];
    if subject != "" {
      qParts := qParts + ["subject:" + subject];
    }
    ghost var head := qParts;
    assert head == [BaseQuery] + SubjectPart(subject);
    if contains != "" {
      qParts := qParts + [contains];
    }
    assert qParts == head + ContainsPart(contains);
    head := qParts;
    if senders != "" {
      var list := SenderList(senders);
      if |list| > 0 {
        var orParts := FromTerms(list);
        qParts := qParts + ["(" + Join(orParts, " OR ") + ")"];
      }
    }
    assert qParts == head + (if senders != "" then SenderPart(senders) else []);
    head := qParts;
    ghost var dates := DateParts(singleDate, dateStart, dateEnd);
    if singleDate != "" {
      var after, before := "after:" + ReplaceAll(singleDate, '-', '/'), "before:" + DayAfter(singleDate);
      assert dates == [after, before];
      qParts := qParts + [after];
      qParts := qParts + [before];
      PushTwo(head, after, before);
    } else if dateStart != "" || dateEnd != "" {
      ghost var afterPart: seq<string> := [];
      if dateStart != "" {
        var after := "after:" + ReplaceAll(dateStart, '-', '/');
        qParts := qParts + [after];
        afterPart := [after];
      } else {
        EmptyRight(head);
      }
      assert qParts == head + afterPart;
      ghost var beforePart: seq<string> := [];
      if dateEnd != "" {
        var before := "before:" + DayAfter(dateEnd);
        qParts := qParts + [before];
        beforePart := [before];
      }
      assert dates == afterPart + beforePart;
      ConcatAssoc(head, afterPart, beforePart);
    } else {
      assert dates == [];
    }
    assert qParts == head + dates;
    q := Join(qParts, " ");
  }

  /** The query always opens with the category exclusion. */
  lemma QueryStartsWithBase(p: Params)
    ensures StartsWith(Join(QueryParts(p), " "), BaseQuery)
  {
    JoinStartsWith(QueryParts(p), " ");
  }

  /** With a single date, the range parameters do not affect the query. */
  lemma SingleDateWins(p: Params, start: Option<string>, end: Option<string>)
    requires Truthy(p.singleDate)
    ensures QueryParts(p) == QueryParts(p.(dateStart := start, dateEnd := end))
  {
  }

  /** The list call: the inbox, 20 messages, the query, and the page token
      when it is a non-empty string. */
  datatype ListRequest = ListRequest(labelIds: seq<string>, maxResults: nat, q: string, pageToken: Option<string>)

  function ListRequestFor(q: string, pageToken: Option<string>): (r: ListRequest)
    ensures r.labelIds == ["INBOX"] && r.maxResults == 20 && r.q == q
    ensures r.pageToken.Some? <==> Truthy(pageToken)
    ensures r.pageToken.Some? ==> r.pageToken == pageToken
  {
    ListRequest(["INBOX"], 20, q, if Truthy(pageToken) then pageToken else None)
  }

  // ---------------------------------------------------------------------------
  // Projection
  // ---------------------------------------------------------------------------

  datatype Header = Header(name: Option<string>, value: Option<string>)

  datatype Part = Part(filename: Option<string>)

  /** A message in `metadata` format. */
  datatype Metadata = Metadata(
    id: string,
    snippet: string,
    labelIds: Option<seq<string>>,
    headers: Option<seq<Header>>,
    parts: Option<seq<Part>>)

  /** `headers.find(h => h.name === name)?.value`. */
  function HeaderValue(headers: seq<Header>, name: string): (r: Option<string>)
    ensures r.Some? ==> exists i :: 0 <= i < |headers| && headers[i].name == Some(name) && headers[i].value == r
    ensures (forall i :: 0 <= i < |headers| ==> headers[i].name != Some(name)) ==> r.None?
  {
    if headers == [] then None
    else if headers[0].name == Some(name) then headers[0].value
    else
      var r := HeaderValue(headers[1..], name);
      assert r.Some? ==> exists i :: 0 <= i < |headers| && headers[i].name == Some(name) && headers[i].value == r by {
        if r.Some? {
          var i :| 0 <= i < |headers[1..]| && headers[1..][i].name == Some(name) && headers[1..][i].value == r;
          assert headers[i + 1] == headers[1..][i];
        }
      }
      r
  }

  /** The first header with the name decides, even when a later one has a
      value. */
  lemma {:induction false} FirstHeaderWins(headers: seq<Header>, name: string, i: nat)
    requires i < |headers| && headers[i].name == Some(name)
    requires forall j :: 0 <= j < i ==> headers[j].name != Some(name)
    ensures HeaderValue(headers, name) == headers[i].value
  {
    if i > 0 {
      var rest := headers[1..];
      assert forall j :: 0 <= j < i - 1 ==> rest[j] == headers[j + 1];
      FirstHeaderWins(rest, name, i - 1);
    }
  }

  predicate IsLineTerminator(c: char) {
    c == '\n' || c == '\r' || c == '\U{2028}' || c == '\U{2029}'
  }

  /** `j` lies on the line that runs from `k`: no line terminator from `k`
      up to and including `j`. */
  predicate OnLine(s: string, k: nat, j: nat) {
    k <= j < |s| && forall m :: k <= m <= j ==> !IsLineTerminator(s[m])
  }

  /** `.` does not match a line terminator, so the greedy `.*>` ends at the
      last `>` of the line; `LastClose` finds exactly that `>`. */
  lemma {:induction false} LastCloseIsLast(s: string, k: nat, best: Option<nat>)
    requires k <= |s|
    requires best.Some? ==> best.value < k && s[best.value] == '>'
    ensures var r := LastClose(s, k, best);
            (r.Some? && r != best ==> OnLine(s, k, r.value))
            && (forall j: nat :: OnLine(s, k, j) && s[j] == '>' ==> r.Some? && r != best && j <= r.value)
    decreases |s| - k
  {
    if k < |s| && !IsLineTerminator(s[k]) {
      var best' := if s[k] == '>' then Some(k) else best;
      LastCloseIsLast(s, k + 1, best');
      var r := LastClose(s, k, best);
      forall j: nat | OnLine(s, k, j) && s[j] == '>'
        ensures r.Some? && r != best && j <= r.value
      {
        if j > k {
          assert OnLine(s, k + 1, j);
        }
      }
      if r.Some? && r != best && r != best' {
        assert OnLine(s, k + 1, r.value);
      }
    }
  }

  /** The last `>` at or after `k` before the next line terminator. */
  function LastClose(s: string, k: nat, best: Option<nat>): (r: Option<nat>)
    requires k <= |s|
    requires best.Some? ==> best.value < k && s[best.value] == '>'
    ensures r.Some? ==> r.value < |s| && s[r.value] == '>'
    ensures r.Some? && r != best ==> k <= r.value
    ensures best.Some? ==> r.Some?
    decreases |s| - k
  {
    if k == |s| || IsLineTerminator(s[k]) then best
    else LastClose(s, k + 1, if s[k] == '>' then Some(k) else best)
  }

  /** A match of `/<.*>/` can start at `k`: a `<` with a `>` after it on the
      same line. */
  predicate Opens(s: string, k: nat) {
    k < |s| && s[k] == '<' && LastClose(s, k + 1, None).Some?
  }

  /** The match of `/<.*>/` searching from `i`: the leftmost `<` that has a
      `>` after it on the same line, up to the last such `>`. */
  function AngleMatch(s: string, i: nat): (r: Option<(nat, nat)>)
    requires i <= |s|
    ensures r.Some? ==> i <= r.value.0 < r.value.1 < |s| && s[r.value.0] == '<' && s[r.value.1] == '>'
    ensures r.Some? ==> LastClose(s, r.value.0 + 1, None) == Some(r.value.1)
    ensures r.Some? ==> forall k :: i <= k < r.value.0 ==> !Opens(s, k)
    ensures r.None? ==> forall k :: i <= k < |s| ==> !Opens(s, k)
    decreases |s| - i
  {
    if i == |s| then None
    else if Opens(s, i) then Some((i, LastClose(s, i + 1, None).value))
    else AngleMatch(s, i + 1)
  }

  /** `from.replace(/<.*>/, "")`: the first match removed, if any. */
  function StripAngle(s: string): (r: string)
    ensures AngleMatch(s, 0).None? ==> r == s
  {
    match AngleMatch(s, 0)
    case None => s
    case Some((i, j)) => s[..i] + s[j + 1..]
  }

  lemma {:induction false} LastCloseNone(s: string, k: nat)
    requires k <= |s| && '>' !in s[k..]
    ensures LastClose(s, k, None) == None
    decreases |s| - k
  {
    if k < |s| && !IsLineTerminator(s[k]) {
      assert s[k] == s[k..][0];
      assert s[k + 1..] == s[k..][1..];
      LastCloseNone(s, k + 1);
    }
  }

  lemma {:induction false} NoAngleBefore(s: string, i: nat, k: nat)
    requires i <= k < |s| && '<' !in s[i..k]
    ensures AngleMatch(s, i) == AngleMatch(s, k)
    decreases k - i
  {
    if i < k {
      assert s[i] == s[i..k][0];
      assert s[i + 1..k] == s[i..k][1..];
      NoAngleBefore(s, i + 1, k);
    }
  }

  /** `"Name <address>"` with a single-line address loses the bracketed
      address. */
  lemma StripAngleOfAddress(name: string, addr: string)
    requires '<' !in name && '>' !in addr
    requires forall i :: 0 <= i < |addr| ==> !IsLineTerminator(addr[i])
    ensures StripAngle(name + "<" + addr + ">") == name
  {
    var s := name + "<" + addr + ">";
    var i, j := |name|, |name| + 1 + |addr|;
    assert s[..i] == name;
    NoAngleBefore(s, 0, i);
    assert s[i] == '<';
    assert LastClose(s, i + 1, None) == Some(j) by {
      LastCloseThrough(s, i + 1, j);
    }
    assert s[j + 1..] == [];
  }

  /** Scanning `s[k..j]`, which holds no `>` and no line terminator, up to a
      final `>` at `j` finds `j`. */
  lemma {:induction false} LastCloseThrough(s: string, k: nat, j: nat)
    requires k <= j == |s| - 1 && s[j] == '>'
    requires forall t :: k <= t < j ==> s[t] != '>' && !IsLineTerminator(s[t])
    ensures LastClose(s, k, None) == Some(j)
    decreases j - k
  {
    if k < j {
      LastCloseThrough(s, k + 1, j);
    }
  }

  /** `res.data.labelIds?.includes(label) || false`. */
  predicate HasLabel(labels: Option<seq<string>>, name: string) {
    labels.Some? && name in labels.value
  }

  /** `parts?.some(p => !!p.filename) || false`. */
  predicate AnyFilename(parts: Option<seq<Part>>) {
    parts.Some? && exists i :: 0 <= i < |parts.value| && Truthy(parts.value[i].filename)
  }

  /** The e-mail record for one message. `localeDate` stands for
      `new Date(date).toLocaleDateString("fr-FR", …)`. */
  function Project(m: Metadata, localeDate: string -> string): (e: Mail.Email)
    ensures e.id == m.id && e.preview == m.snippet && e.content == "" && e.category == "Travail"
    ensures e.attachments.None?
    ensures e.isUnread <==> HasLabel(m.labelIds, "UNREAD")
    ensures e.isStarred <==> HasLabel(m.labelIds, "STARRED")
    ensures e.hasAttachment <==> AnyFilename(m.parts)
    ensures e.subject == Or(HeaderValue(if m.headers.Some? then m.headers.value else [], "Subject"), "No Subject")
    ensures e.sender == Trim(StripAngle(Or(HeaderValue(if m.headers.Some? then m.headers.value else [], "From"), "Unknown Sender")))
  {
    var headers := if m.headers.Some? then m.headers.value else [];
    var subject := Or(HeaderValue(headers, "Subject"), "No Subject");
    var from := Or(HeaderValue(headers, "From"), "Unknown Sender");
    var date := Or(HeaderValue(headers, "Date"), "");
    Mail.Email(m.id, Trim(StripAngle(from)), subject, m.snippet, "", localeDate(date),
               AnyFilename(m.parts), HasLabel(m.labelIds, "STARRED"), HasLabel(m.labelIds, "UNREAD"),
               "Travail", None)
  }

  /** A message without headers is listed as "No Subject" from
      "Unknown Sender". */
  lemma ProjectWithoutHeaders(m: Metadata, localeDate: string -> string)
    requires m.headers.None?
    ensures Project(m, localeDate).subject == "No Subject"
    ensures Project(m, localeDate).sender == "Unknown Sender"
  {
    assert HeaderValue([], "Subject") == None;
    assert HeaderValue([], "From") == None;
    UnknownSenderKept();
  }

  /** The default sender has no bracketed part and no surrounding space. */
  lemma UnknownSenderKept()
    ensures Trim(StripAngle("Unknown Sender")) == "Unknown Sender"
  {
    var s := "Unknown Sender";
    assert AngleMatch(s, 0).None? by {
      NoAngleBefore(s, 0, |s| - 1);
    }
    TrimTrimmed(s);
  }

  // ---------------------------------------------------------------------------
  // Errors
  // ---------------------------------------------------------------------------

  /** The error body Google attached to a failed call, if any. */
  datatype GoogleError = GoogleError(error: Option<string>, errorDescription: Option<string>)

  /** A caught error: its message (`err.message || String(err)`) and Google's
      error body. */
  datatype Failure = Failure(message: string, google: Option<GoogleError>)

  /** `/expired|revoked/i.test(s)`. */
  predicate MentionsExpiry(s: string) {
    Contains(AsciiLower(s), "expired") || Contains(AsciiLower(s), "revoked")
  }

  /** The refresh token is no longer valid: the message or Google's error is
      `invalid_grant`, or Google's description says expired or revoked. */
  predicate GrantRevoked(f: Failure) {
    Contains(f.message, "invalid_grant")
    || (f.google.Some? && f.google.value.error == Some("invalid_grant"))
    || (f.google.Some? && Truthy(f.google.value.errorDescription) && MentionsExpiry(f.google.value.errorDescription.value))
  }

  datatype ErrorReply = ErrorReply(status: int, error: string, details: string)

  const ReauthMessage: string := "Refresh token expired or revoked. Please re-authenticate."
  const NoTokenMessage: string := "Not authenticated or access token is missing"

  /** The `GET` error mapping. */
  function ClassifyListError(f: Failure): (r: ErrorReply)
    ensures r.details == f.message
    ensures r.status == 401 <==> GrantRevoked(f) || Contains(f.message, "Not authenticated")
    ensures r.status == 500 <==> !(GrantRevoked(f) || Contains(f.message, "Not authenticated"))
  {
    if GrantRevoked(f) then ErrorReply(401, ReauthMessage, f.message)
    else if Contains(f.message, "Not authenticated") then
      ErrorReply(401, "Authentication failed. Please log in again.", f.message)
    else ErrorReply(500, "Failed to fetch emails from Gmail API", f.message)
  }

  /** The `DELETE` error mapping: only a revoked grant is a 401. */
  function ClassifyDeleteError(f: Failure): (r: ErrorReply)
    ensures r.details == f.message
    ensures r.status == 401 <==> GrantRevoked(f)
    ensures r.status == 500 <==> !GrantRevoked(f)
  {
    if GrantRevoked(f) then ErrorReply(401, ReauthMessage, f.message)
    else ErrorReply(500, "Failed to delete messages", f.message)
  }

  /** A missing session reaches the `GET` handler's catch as an error whose
      message says so, and is answered 401. */
  lemma MissingTokenIsUnauthorized()
    ensures ClassifyListError(Failure(NoTokenMessage, None)).status == 401
  {
    var m := NoTokenMessage;
    assert m[..17] == "Not authenticated";
    assert StartsWith(m, "Not authenticated");
  }

  // ---------------------------------------------------------------------------
  // Handlers
  // ---------------------------------------------------------------------------

  /** What listing the inbox produced. */
  datatype ListOutcome = ListFailed(failure: Failure) | Listed(messageIds: Option<seq<string>>, nextPageToken: Option<string>)

  /** What fetching the metadata of every listed message produced. */
  datatype BatchOutcome = BatchFailed(failure: Failure) | Fetched(metadata: seq<Metadata>)

  datatype ListReply = Listing(emails: seq<Mail.Email>, nextPageToken: Option<string>) | ListError(reply: ErrorReply)

  function Projected(ms: seq<Metadata>, localeDate: string -> string): (r: seq<Mail.Email>)
    ensures |r| == |ms|
    ensures forall i :: 0 <= i < |ms| ==> r[i] == Project(ms[i], localeDate)
  {
    Mapped(ms, m => Project(m, localeDate))
  }

  /** `GET /api/emails`. `list` is Gmail's answer to the list request and
      `fetchAll` its answer to the metadata requests for the listed ids. */
  method Get(hasToken: bool, p: Params, list: ListRequest -> ListOutcome, fetchAll: seq<string> -> BatchOutcome,
             localeDate: string -> string)
    returns (reply: ListReply)
    ensures !hasToken ==> reply == ListError(ClassifyListError(Failure(NoTokenMessage, None)))
    ensures hasToken ==>
              match list(ListRequestFor(Join(QueryParts(p), " "), p.pageToken))
              case ListFailed(f) => reply == ListError(ClassifyListError(f))
              case Listed(ids, next) =>
                var token := if Truthy(next) then next else None;
                if ids.None? || ids.value == [] then reply == Listing([], token)
                else match fetchAll(ids.value)
                  case BatchFailed(f) => reply == ListError(ClassifyListError(f))
                  case Fetched(ms) => reply == Listing(Projected(ms, localeDate), token)
  {
    if !hasToken {
      return ListError(ClassifyListError(Failure(NoTokenMessage, None)));
    }
    var q := BuildQuery(p);
    var outcome := list(ListRequestFor(q, p.pageToken));
    match outcome {
      case ListFailed(f) =>
        reply := ListError(ClassifyListError(f));
      case Listed(ids, next) =>
        var token := if Truthy(next) then next else None;
        var messages := if ids.Some? then ids.value else [];
        if |messages| == 0 {
          return Listing([], token);
        }
        match fetchAll(messages) {
          case BatchFailed(f) =>
            reply := ListError(ClassifyListError(f));
          case Fetched(ms) =>
            reply := Listing(Projected(ms, localeDate), token);
        }
    }
  }

  /** The `ids` field of a `DELETE` body. */
  datatype IdsField = Falsy | NotAnArray | Ids(ids: seq<string>)

  /** The `DELETE` body: unreadable JSON, or its `ids`. */
  datatype DeleteBody = BadJson(message: string) | DeleteJson(ids: IdsField)

  datatype DeleteReply = Deleted(count: nat) | DeleteError(status: int, error: string, details: Option<string>)

  /** `DELETE /api/emails`. `gmail` is the outcome of the profile check and
      the batch delete for the given ids: `None` when both succeeded. */
  method Delete(hasToken: bool, body: DeleteBody, gmail: seq<string> -> Option<Failure>) returns (reply: DeleteReply)
    ensures !hasToken ==> reply == DeleteError(401, "Not authenticated", None)
    ensures hasToken && body.BadJson? ==>
              var r := ClassifyDeleteError(Failure(body.message, None));
              reply == DeleteError(r.status, r.error, Some(r.details))
    ensures hasToken && body.DeleteJson? && !(body.ids.Ids? && |body.ids.ids| > 0) ==>
              reply == DeleteError(400, "No message ids provided", None)
    ensures hasToken && body.DeleteJson? && body.ids.Ids? && |body.ids.ids| > 0 ==>
              match gmail(body.ids.ids)
              case None => reply == Deleted(|body.ids.ids|)
              case Some(f) =>
                var r := ClassifyDeleteError(f);
                reply == DeleteError(r.status, r.error, Some(r.details))
    ensures reply.Deleted? ==> reply.count > 0
  {
    if !hasToken {
      return DeleteError(401, "Not authenticated", None);
    }
    if body.BadJson? {
      var r := ClassifyDeleteError(Failure(body.message, None));
      return DeleteError(r.status, r.error, Some(r.details));
    }
    if !body.ids.Ids? || |body.ids.ids| == 0 {
      return DeleteError(400, "No message ids provided", None);
    }
    var ids := body.ids.ids;
    var failure := gmail(ids);
    if failure.Some? {
      var r := ClassifyDeleteError(failure.value);
      return DeleteError(r.status, r.error, Some(r.details));
    }
    reply := Deleted(|ids|);
  }
}
