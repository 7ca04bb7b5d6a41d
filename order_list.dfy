/** The order list screen (mytailor5/components/OrderList.tsx): the status
    toggle, the overdue highlighting, the search filter, the edit dialog's
    state updates and validation, the cover photo and the file name of a
    downloaded receipt. Every handler is a function from the previous state
    to the next; clocks and date parsing are parameters. */
module OrderList {
  import opened Wrappers
  import opened Text
  import opened Orders
  import opened ListEdits

  // ---------------------------------------------------------------- status

  /** `handleToggleStatus`: pending becomes completed, stamped with `now`,
      and completed becomes pending with the stamp cleared; nothing else
      changes. */
  function ToggleStatus(o: Order, now: int): (r: Order)
    ensures r.status != o.status
    ensures r.completedAt == (if r.status == Completed then Some(now) else None)
    ensures r.(status := o.status, completedAt := o.completedAt) == o
  {
    var status := if o.status == Pending then Completed else Pending;
    o.(status := status, completedAt := if status == Completed then Some(now) else None)
  }

  /** Marking a pending order done and then undoing it gives the order back
      with no completion time. */
  lemma ToggleTwiceFromPending(o: Order, t1: int, t2: int)
    requires o.status == Pending
    ensures ToggleStatus(ToggleStatus(o, t1), t2) == o.(completedAt := None)
  {
  }

  /** From completed, two toggles give a completed order stamped with the
      second time. */
  lemma ToggleTwiceFromCompleted(o: Order, t1: int, t2: int)
    requires o.status == Completed
    ensures ToggleStatus(ToggleStatus(o, t1), t2) == o.(completedAt := Some(t2))
  {
  }

  // ---------------------------------------------------------------- urgency

  datatype Urgency = Normal | Warning | Serious | Critical

  function Rank(u: Urgency): nat {
    match u
    case Normal => 0
    case Warning => 1
    case Serious => 2
    case Critical => 3
  }

  /** `getUrgencyLevel`: more than ten whole days old is critical, more than
      seven serious, more than five a warning. */
  function UrgencyLevel(now: int, createdAt: int): (u: Urgency)
    ensures u == Critical <==> OlderThanDays(now, createdAt, 10)
    ensures u == Serious <==> OlderThanDays(now, createdAt, 7) && !OlderThanDays(now, createdAt, 10)
    ensures u == Warning <==> OlderThanDays(now, createdAt, 5) && !OlderThanDays(now, createdAt, 7)
    ensures u == Normal <==> !OlderThanDays(now, createdAt, 5)
  {
    if OlderThanDays(now, createdAt, 10) then Critical
    else if OlderThanDays(now, createdAt, 7) then Serious
    else if OlderThanDays(now, createdAt, 5) then Warning
    else Normal
  }

  /** An older order is never less urgent. */
  lemma UrgencyMonotone(now: int, older: int, newer: int)
    requires older <= newer
    ensures Rank(UrgencyLevel(now, newer)) <= Rank(UrgencyLevel(now, older))
  {
  }

  /** The highlighting of a card: only the pending tab shows urgency. */
  function CardUrgency(tab: Status, now: int, createdAt: int): (u: Urgency)
    ensures tab == Completed ==> u == Normal
    ensures tab == Pending ==> u == UrgencyLevel(now, createdAt)
  {
    if tab == Pending then UrgencyLevel(now, createdAt) else Normal
  }

  // ---------------------------------------------------------------- search

  /** The search test: the lower-cased note or name contains the lower-cased
      term. `lower` is `String.prototype.toLowerCase`, whose full Unicode case
      mapping is left to the caller. */
  predicate MatchesSearch(o: Order, term: string, lower: string -> string) {
    Contains(lower(o.note), lower(term)) || Contains(lower(o.customerName), lower(term))
  }

  predicate Shown(o: Order, tab: Status, term: string, lower: string -> string) {
    o.status == tab && MatchesSearch(o, term, lower)
  }

  /** `filteredOrders`: the orders of the active tab that match the search
      term. */
  function FilteredOrders(orders: seq<Order>, tab: Status, term: string, lower: string -> string): (r: seq<Order>)
    ensures forall o :: o in r <==> o in orders && Shown(o, tab, term, lower)
    ensures |r| <= |orders|
  {
    if orders == [] then []
    else if Shown(orders[0], tab, term, lower) then [orders[0]] + FilteredOrders(orders[1..], tab, term, lower)
    else FilteredOrders(orders[1..], tab, term, lower)
  }

  /** The filter keeps the list order. */
  lemma {:induction false} FilteredIsSubsequence(orders: seq<Order>, tab: Status, term: string, lower: string -> string)
    ensures SubsequenceOf(FilteredOrders(orders, tab, term, lower), orders)
  {
    if orders != [] {
      var rest := FilteredOrders(orders[1..], tab, term, lower);
      FilteredIsSubsequence(orders[1..], tab, term, lower);
      if Shown(orders[0], tab, term, lower) {
        assert ([orders[0]] + rest)[1..] == rest;
      } else if rest != [] {
        assert Shown(rest[0], tab, term, lower);
      }
    }
  }

  /** Filtering a list is filtering its parts one after the other. */
  lemma {:induction false} FilteredAppend(a: seq<Order>, b: seq<Order>, tab: Status, term: string, lower: string -> string)
    ensures FilteredOrders(a + b, tab, term, lower) == FilteredOrders(a, tab, term, lower) + FilteredOrders(b, tab, term, lower)
  {
    if a == [] {
      assert a + b == b;
    } else {
      assert (a + b)[0] == a[0] && (a + b)[1..] == a[1..] + b;
      FilteredAppend(a[1..], b, tab, term, lower);
    }
  }

  /** With no search term the whole tab is listed. */
  lemma EmptyTermKeepsTab(orders: seq<Order>, tab: Status, o: Order, lower: string -> string)
    requires lower("") == ""
    ensures o in FilteredOrders(orders, tab, "", lower) <==> o in orders && o.status == tab
  {
    EverythingContainsEmpty(lower(o.note));
  }

  // ---------------------------------------------------------------- editing

  /** The edit dialog's `editForm`: the fields it edits, `None` where the
      form does not hold the field (after `cancelEditing` it holds none). */
  datatype Draft = Draft(
    customerName: Option<string>,
    images: Option<seq<string>>,
    tags: Option<seq<string>>,
    note: Option<string>,
    price: Option<JsNumber>)

  /** `startEditing`: the form starts as a copy of the order. */
  function StartEditing(o: Order): (d: Draft)
    ensures d.customerName == Some(o.customerName) && d.images == Some(o.images)
    ensures d.tags == o.tags && d.note == Some(o.note) && d.price == Some(o.price)
  {
    Draft(Some(o.customerName), Some(o.images), o.tags, Some(o.note), Some(o.price))
  }

  /** `toggleEditTag`, with a form that holds no tags starting from none. */
  function ToggleEditTag(d: Draft, tag: string): (r: Draft)
    ensures r.tags == Some(ToggleTag(d.tags.GetOr([]), tag))
    ensures r.(tags := d.tags) == d
  {
    d.(tags := Some(ToggleTag(d.tags.GetOr([]), tag)))
  }

  /** Selecting an unselected tag in the dialog and deselecting it again
      leaves the tags as they were (an absent list becomes empty). */
  lemma ToggleEditTagTwice(d: Draft, tag: string)
    requires tag !in d.tags.GetOr([])
    ensures ToggleEditTag(ToggleEditTag(d, tag), tag) == d.(tags := Some(d.tags.GetOr([])))
  {
    ToggleAbsentTwice(d.tags.GetOr([]), tag);
  }

  /** `handleEditImageAdd`: `compressed` is what the compression loop
      produced, `None` when it failed (the form is left as it was, as when no
      file was chosen); the new photos go after the existing ones. */
  function EditImageAdd(d: Draft, compressed: Option<seq<string>>): (r: Draft)
    ensures compressed.None? || compressed.value == [] ==> r == d
    ensures compressed.Some? && compressed.value != [] ==>
      r.images == Some(d.images.GetOr([]) + compressed.value) && r.(images := d.images) == d
  {
    if compressed.None? || compressed.value == [] then d
    else d.(images := Some(d.images.GetOr([]) + compressed.value))
  }

  /** `handleEditImageRemove`: only the photo at `idx` goes. */
  function EditImageRemove(d: Draft, idx: int): (r: Draft)
    ensures var old_ := d.images.GetOr([]);
            r.images == Some(if 0 <= idx < |old_| then old_[..idx] + old_[idx + 1..] else old_)
    ensures r.(images := d.images) == d
  {
    d.(images := Some(RemoveAt(d.images.GetOr([]), idx)))
  }

  /** Removing the one photo just added gives the photos back. */
  lemma AddThenRemove(d: Draft, photo: string)
    requires d.images.Some?
    ensures EditImageRemove(EditImageAdd(d, Some([photo])), |d.images.value|) == d
  {
    RemoveAtAppended(d.images.value, photo);
  }

  const NameRequired: string := "顾客姓名不能为空"

  /** `{ ...selectedOrder, ...editForm, createdAt, price }`: the form's
      fields replace the order's, the price becomes `Number(price) || 0`,
      and the order keeps its id, status, completion time and source. */
  function ApplyDraft(selected: Order, d: Draft, createdAt: int): (r: Order)
    requires d.customerName.Some?
    ensures r.customerName == d.customerName.value
    ensures r.images == d.images.GetOr(selected.images)
    ensures r.tags == (if d.tags.Some? then d.tags else selected.tags)
    ensures r.note == d.note.GetOr(selected.note)
    ensures r.createdAt == createdAt
    ensures r.price.Finite?
    ensures d.price.Some? && d.price.value.Finite? ==> r.price == d.price.value
    ensures d.price.None? || d.price.value.NaN? ==> r.price == Finite(0.0)
    ensures r.id == selected.id && r.status == selected.status
    ensures r.completedAt == selected.completedAt && r.source == selected.source
  {
    selected.(
      customerName := d.customerName.value,
      images := d.images.GetOr(selected.images),
      tags := if d.tags.Some? then d.tags else selected.tags,
      note := d.note.GetOr(selected.note),
      createdAt := createdAt,
      price := d.price.GetOr(NaN).OrZero())
  }

  /** `saveEditing` up to `updateOrder`: a missing or blank name is refused
      before anything is saved; otherwise the date text, when there is one,
      gives the new creation time through `parseDate`. */
  function SaveEditing(selected: Order, d: Draft, dateText: string, parseDate: string -> int): (r: Result<Order>)
    ensures r.Failure? <==> d.customerName.None? || IsBlank(d.customerName.value)
    ensures r.Failure? ==> r.error == NameRequired
    ensures r.Success? ==>
      d.customerName.Some? &&
      r.value == ApplyDraft(selected, d, if dateText == "" then selected.createdAt else parseDate(dateText))
  {
    TrimEmptyIffBlank(d.customerName.GetOr(""));
    if d.customerName.None? || Trim(d.customerName.value) == "" then Failure(NameRequired)
    else
      var createdAt := if dateText != "" then parseDate(dateText) else selected.createdAt;
      Success(ApplyDraft(selected, d, createdAt))
  }

  /** Saving the dialog without touching it gives the order back, except that
      a price that is not a number is saved as 0. */
  lemma SaveUntouched(o: Order, parseDate: string -> int)
    requires !IsBlank(o.customerName)
    ensures SaveEditing(o, StartEditing(o), "", parseDate) == Success(o.(price := o.price.OrZero()))
  {
  }

  // ---------------------------------------------------------------- cards and files

  /** The cover of a card: the first photo, or the legacy `imageBase64` when
      the order has none. */
  function CoverImage(o: Order, imageBase64: Option<string>): (r: Option<string>)
    ensures |o.images| > 0 ==> r == Some(o.images[0]) && r.value in o.images
    ensures |o.images| == 0 ==> r == imageBase64
  {
    if |o.images| > 0 then Some(o.images[0]) else imageBase64
  }

  /** Adding photos never changes the cover of an order that has one. */
  lemma CoverStableUnderAppend(o: Order, more: seq<string>, imageBase64: Option<string>)
    requires |o.images| > 0
    ensures CoverImage(o.(images := o.images + more), imageBase64) == CoverImage(o, imageBase64)
  {
  }

  /** The characters a download name keeps: ASCII letters and digits and the
      CJK ideographs U+4E00 to U+9FA5. */
  predicate IsNameChar(c: char) {
    'a' <= c <= 'z' || 'A' <= c <= 'Z' || '0' <= c <= '9' || '\U{4E00}' <= c <= '\U{9FA5}'
  }

  /** `s.replace(/[^a-zA-Z0-9一-龥]/g, '')`. */
  function KeepNameChars(s: string): (r: string)
    ensures forall i :: 0 <= i < |r| ==> IsNameChar(r[i])
    ensures |r| <= |s|
  {
    if s == [] then []
    else (if IsNameChar(s[0]) then [s[0]] else []) + KeepNameChars(s[1..])
  }

  /** The customer part of the downloaded file name in `handleDownloadFile`. */
  function CleanName(customerName: string): string {
    KeepNameChars(if customerName == "" then "NoName" else customerName)
  }

  /** What the filter keeps it keeps in order. */
  lemma {:induction false} KeepNameCharsIsSubsequence(s: string)
    ensures SubsequenceOf(KeepNameChars(s), s)
  {
    if s != [] {
      var rest := KeepNameChars(s[1..]);
      KeepNameCharsIsSubsequence(s[1..]);
      if IsNameChar(s[0]) {
        assert KeepNameChars(s) == [s[0]] + rest;
        assert ([s[0]] + rest)[1..] == rest;
      } else {
        assert KeepNameChars(s) == rest;
        if rest != [] {
          assert IsNameChar(rest[0]);
        }
      }
    }
  }

  /** The filter works character by character: the parts of a name are
      filtered one after the other. */
  lemma {:induction false} KeepNameCharsAppend(a: string, b: string)
    ensures KeepNameChars(a + b) == KeepNameChars(a) + KeepNameChars(b)
  {
    if a == [] {
      assert a + b == b;
    } else {
      var head := if IsNameChar(a[0]) then [a[0]] else [];
      assert (a + b)[0] == a[0] && (a + b)[1..] == a[1..] + b;
      assert KeepNameChars(a + b) == head + KeepNameChars(a[1..] + b);
      assert KeepNameChars(a) == head + KeepNameChars(a[1..]);
      KeepNameCharsAppend(a[1..], b);
    }
  }

  /** A single character is kept exactly when it is allowed. */
  lemma KeepNameCharsSingle()
    ensures forall c :: KeepNameChars([c]) == if IsNameChar(c) then [c] else []
  {
    forall c
      ensures KeepNameChars([c]) == if IsNameChar(c) then [c] else []
    {
      assert [c][1..] == [];
    }
  }

  /** A string of allowed characters passes the filter unchanged. */
  lemma {:induction false} KeepNameCharsFixed(s: string)
    requires forall i :: 0 <= i < |s| ==> IsNameChar(s[i])
    ensures KeepNameChars(s) == s
  {
    if s != [] {
      KeepNameCharsFixed(s[1..]);
      assert [s[0]] + s[1..] == s;
    }
  }

  /** Cleaning a cleaned name changes it no more, unless the first cleaning
      left nothing: then the second one starts again from "NoName". */
  lemma CleanNameIdempotent(name: string)
    ensures CleanName(name) != "" ==> CleanName(CleanName(name)) == CleanName(name)
    ensures CleanName(name) == "" ==> CleanName(CleanName(name)) == "NoName"
  {
    var once := CleanName(name);
    if once != "" {
      KeepNameCharsFixed(once);
    } else {
      KeepNameCharsFixed("NoName");
    }
  }

  /** A name of symbols only is the case where cleaning twice differs. */
  lemma SymbolsOnlyName()
    ensures CleanName("###") == "" && CleanName(CleanName("###")) == "NoName"
  {
    CleanNameIdempotent("###");
  }
}
