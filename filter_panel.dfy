/** The advanced-filter panel of components/email-filter-panel.tsx: text
    fields, a list of sender filters the user edits, and the filter object it
    hands to the dashboard. */
module FilterPanel {
  import opened JsText

  /** One sender filter line; `id` is the creation time as text. */
  datatype CustomFilter = CustomFilter(id: string, value: string)

  datatype DateRange = DateRange(start: string, end: string)

  /** The object passed to `onApplyFilters`. */
  datatype Filters = Filters(
    subject: string,
    containsWords: string,
    singleDate: string,
    dateRange: Option<DateRange>,
    customFilters: seq<CustomFilter>)

  /** The panel's notifications to its parent, in the order it sends them. */
  datatype Event = Applied(filters: Filters) | Closed

  // ---------------------------------------------------------------------------
  // List edits
  // ---------------------------------------------------------------------------

  predicate HasId(fs: seq<CustomFilter>, id: string) {
    exists i :: 0 <= i < |fs| && fs[i].id == id
  }

  /** `[...customFilters, { id, type: "sender", value: "" }]`. */
  function Added(fs: seq<CustomFilter>, id: string): (r: seq<CustomFilter>)
    ensures |r| == |fs| + 1
    ensures r[..|fs|] == fs
    ensures r[|fs|] == CustomFilter(id, "")
  {
    fs + [CustomFilter(id, "")]
  }

  /** `customFilters.filter(f => f.id !== id)`. */
  function Removed(fs: seq<CustomFilter>, id: string): (r: seq<CustomFilter>)
    ensures |r| <= |fs|
    ensures !HasId(r, id)
    ensures forall f :: f in r <==> f in fs && f.id != id
  {
    if fs == [] then []
    else
      var init := Removed(fs[..|fs| - 1], id);
      var last := fs[|fs| - 1];
      assert forall f :: f in fs[..|fs| - 1] ==> f in fs;
      if last.id == id then init else init + [last]
  }

  /** Entries with another id are all kept, in their order. */
  lemma {:induction false} RemovedKeepsOthers(fs: seq<CustomFilter>, id: string)
    requires !HasId(fs, id)
    ensures Removed(fs, id) == fs
  {
    if fs != [] {
      var init := fs[..|fs| - 1];
      NoIdInit(fs, id);
      RemovedKeepsOthers(init, id);
      assert fs == init + [fs[|fs| - 1]];
    }
  }

  lemma NoIdInit(fs: seq<CustomFilter>, id: string)
    requires fs != [] && !HasId(fs, id)
    ensures !HasId(fs[..|fs| - 1], id) && fs[|fs| - 1].id != id
  {
    var init := fs[..|fs| - 1];
    assert forall i :: 0 <= i < |init| ==> init[i] == fs[i];
  }

  /** The filter works entry by entry: removing from a concatenation is
      removing from each part, so the kept entries stay in list order. */
  lemma {:induction false} RemovedConcat(a: seq<CustomFilter>, b: seq<CustomFilter>, id: string)
    ensures Removed(a + b, id) == Removed(a, id) + Removed(b, id)
    decreases |b|
  {
    if b == [] {
      assert a + b == a;
    } else {
      var b' := b[..|b| - 1];
      assert (a + b)[..|a + b| - 1] == a + b';
      assert (a + b)[|a + b| - 1] == b[|b| - 1];
      RemovedConcat(a, b', id);
    }
  }

  /** Removing the one entry that has the id, as the remove button does with
      its own entry's id, leaves every other entry, in order. */
  lemma RemoveOnly(fs: seq<CustomFilter>, i: nat, id: string)
    requires i < |fs| && fs[i].id == id
    requires !HasId(fs[..i], id) && !HasId(fs[i + 1..], id)
    ensures Removed(fs, id) == fs[..i] + fs[i + 1..]
  {
    var pre, post := fs[..i], fs[i + 1..];
    SplitAround(fs, i);
    RemovedConcat(pre + [fs[i]], post, id);
    RemovedDropsLast(pre, fs[i], id);
    RemovedKeepsOthers(post, id);
  }

  /** An entry with the id after entries without it is all that goes. */
  lemma RemovedDropsLast(pre: seq<CustomFilter>, f: CustomFilter, id: string)
    requires f.id == id && !HasId(pre, id)
    ensures Removed(pre + [f], id) == pre
  {
    assert (pre + [f])[..|pre|] == pre;
    RemovedKeepsOthers(pre, id);
  }

  /** Removing a filter just added with a fresh id gives the list back. */
  lemma AddThenRemove(fs: seq<CustomFilter>, id: string)
    requires !HasId(fs, id)
    ensures Removed(Added(fs, id), id) == fs
  {
    var a := Added(fs, id);
    assert a[..|a| - 1] == fs;
    RemovedKeepsOthers(fs, id);
  }

  /** `customFilters.map(f => f.id === id ? { ...f, value } : f)`. */
  function Updated(fs: seq<CustomFilter>, id: string, value: string): (r: seq<CustomFilter>)
    ensures |r| == |fs|
    ensures forall i :: 0 <= i < |fs| ==> r[i].id == fs[i].id
    ensures forall i :: 0 <= i < |fs| && fs[i].id != id ==> r[i] == fs[i]
    ensures forall i :: 0 <= i < |fs| && fs[i].id == id ==> r[i].value == value
  {
    seq(|fs|, i requires 0 <= i < |fs| => if fs[i].id == id then fs[i].(value := value) else fs[i])
  }

  /** A later update of the same filter overrides an earlier one. */
  lemma UpdateOverrides(fs: seq<CustomFilter>, id: string, v: string, w: string)
    ensures Updated(Updated(fs, id, v), id, w) == Updated(fs, id, w)
  {
  }

  /** Updating a filter and then removing it is removing it. */
  lemma {:induction false} UpdateThenRemove(fs: seq<CustomFilter>, id: string, v: string)
    ensures Removed(Updated(fs, id, v), id) == Removed(fs, id)
  {
    if fs != [] {
      var u := Updated(fs, id, v);
      var init := fs[..|fs| - 1];
      assert u[..|u| - 1] == Updated(init, id, v);
      UpdateThenRemove(init, id, v);
    }
  }

  // ---------------------------------------------------------------------------
  // The panel
  // ---------------------------------------------------------------------------

  class Panel {
    var subject: string
    var containsWords: string
    var singleDate: string
    var dateRangeStart: string
    var dateRangeEnd: string
    var customFilters: seq<CustomFilter>
    /** What the panel has told its parent so far. */
    var events: seq<Event>

    constructor ()
      ensures subject == "" && containsWords == "" && singleDate == ""
      ensures dateRangeStart == "" && dateRangeEnd == "" && customFilters == []
      ensures events == []
    {
      subject, containsWords, singleDate := "", "", "";
      dateRangeStart, dateRangeEnd := "", "";
      customFilters := [];
      events := [];
    }

    /** `addCustomFilter`, with the id `Date.now()` gave. */
    method AddCustomFilter(id: string)
      modifies this
      ensures customFilters == Added(old(customFilters), id)
      ensures unchanged(this`subject, this`containsWords, this`singleDate, this`dateRangeStart, this`dateRangeEnd, this`events)
    {
      customFilters := Added(customFilters, id);
    }

    method RemoveCustomFilter(id: string)
      modifies this
      ensures customFilters == Removed(old(customFilters), id)
      ensures unchanged(this`subject, this`containsWords, this`singleDate, this`dateRangeStart, this`dateRangeEnd, this`events)
    {
      customFilters := Removed(customFilters, id);
    }

    method UpdateCustomFilter(id: string, value: string)
      modifies this
      ensures customFilters == Updated(old(customFilters), id, value)
      ensures unchanged(this`subject, this`containsWords, this`singleDate, this`dateRangeStart, this`dateRangeEnd, this`events)
    {
      customFilters := Updated(customFilters, id, value);
    }

    /** The filter object of the current fields: the text fields and the
        list verbatim, and a date range only when both ends are filled in. */
    function Current(): (f: Filters)
      reads this
      ensures f.subject == subject && f.containsWords == containsWords && f.singleDate == singleDate
      ensures f.customFilters == customFilters
      ensures f.dateRange.Some? <==> dateRangeStart != "" && dateRangeEnd != ""
      ensures f.dateRange.Some? ==> f.dateRange.value == DateRange(dateRangeStart, dateRangeEnd)
    {
      var range := if dateRangeStart != "" && dateRangeEnd != "" then Some(DateRange(dateRangeStart, dateRangeEnd)) else None;
      Filters(subject, containsWords, singleDate, range, customFilters)
    }

    /** `handleApplyFilters`: hand over the filters, then close. */
    method ApplyFilters()
      modifies this
      ensures events == old(events) + [Applied(old(Current())), Closed]
      ensures unchanged(this`subject, this`containsWords, this`singleDate, this`dateRangeStart, this`dateRangeEnd, this`customFilters)
    {
      var filters := Current();
      events := events + [Applied(filters)];
      events := events + [Closed];
    }

    /** `handleReset`: every field back to its initial value. */
    method Reset()
      modifies this
      ensures subject == "" && containsWords == "" && singleDate == ""
      ensures dateRangeStart == "" && dateRangeEnd == "" && customFilters == []
      ensures Current() == Filters("", "", "", None, [])
      ensures events == old(events)
    {
      subject := "";
      containsWords := "";
      singleDate := "";
      dateRangeStart := "";
      dateRangeEnd := "";
      customFilters := [];
    }
  }
}
