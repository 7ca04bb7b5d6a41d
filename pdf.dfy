/** The PDF report of the orders (mytailor5/services/pdf.ts): the orders
    cut into pages of fourteen, the text of each table cell, the summary
    line and the pages of the document. Rendering to a canvas and to the PDF
    is outside the model; the text of a date and the fixed-point text of a
    number are parameters. */
module Pdf {
  import opened Wrappers
  import opened Text
  import opened Orders
  import Stats

  // ---------------------------------------------------------------- pages of orders

  /** The orders one page of the report holds. */
  const ChunkSize: nat := 14

  /** The chunks one after the other. */
  function Concat<T>(chunks: seq<seq<T>>): seq<T> {
    if chunks == [] then [] else chunks[0] + Concat(chunks[1..])
  }

  /** `s.slice(i, i + size)` for consecutive multiples `i` of `size`: the
      first `size` elements, then the chunks of the rest. */
  function Chunks<T>(s: seq<T>, size: nat): seq<seq<T>>
    requires size > 0
    decreases |s|
  {
    if s == [] then []
    else if |s| <= size then [s]
    else [s[..size]] + Chunks(s[size..], size)
  }

  /** `chunkOrders`, the loop that pushes one slice per step. The source
      needs a positive `size` (with 0 the loop would not end); it is called
      with `ChunkSize`. */
  method ChunkOrders<T>(orders: seq<T>, size: nat) returns (chunks: seq<seq<T>>)
    requires size > 0
    ensures chunks == Chunks(orders, size)
  {
    chunks := [];
    var i := 0;
    while i < |orders|
      invariant 0 <= i
      invariant i <= |orders| ==> chunks + Chunks(orders[i..], size) == Chunks(orders, size)
      invariant i > |orders| ==> chunks == Chunks(orders, size)
      decreases |orders| - i
    {
      var end := if i + size < |orders| then i + size else |orders|;
      var rest := orders[i..];
      if |rest| <= size {
        assert orders[i..end] == rest;
      } else {
        assert rest[..size] == orders[i..end];
        assert rest[size..] == orders[i + size..];
      }
      chunks := chunks + [orders[i..end]];
      if i + size >= |orders| {
        assert chunks == Chunks(orders, size);
      }
      i := i + size;
    }
    if i == |orders| {
      assert Chunks(orders[i..], size) == [];
    }
  }

  /** The chunks hold the orders, in order, each once. */
  lemma {:induction false} ChunksConcat<T>(s: seq<T>, size: nat)
    requires size > 0
    ensures Concat(Chunks(s, size)) == s
    decreases |s|
  {
    if s != [] && |s| > size {
      ChunksConcat(s[size..], size);
      assert s[..size] + s[size..] == s;
    }
  }

  /** There are just enough chunks to hold every order: `|s|` fits in
      `|c|` chunks and not in one fewer. */
  lemma {:induction false} ChunksCount<T>(s: seq<T>, size: nat)
    requires size > 0
    ensures var n := |Chunks(s, size)|;
            (n - 1) * size < |s| <= n * size
    decreases |s|
  {
    if s != [] && |s| > size {
      var n := |Chunks(s[size..], size)|;
      ChunksCount(s[size..], size);
      assert (n + 1) * size == n * size + size;
      assert n * size == (n - 1) * size + size;
    }
  }

  /** Every chunk holds at least one order and at most `size`, and every
      chunk but the last holds exactly `size`. */
  predicate WellCut<T>(c: seq<seq<T>>, size: nat) {
    && (forall k :: 0 <= k < |c| ==> 0 < |c[k]| <= size)
    && (forall k :: 0 <= k < |c| - 1 ==> |c[k]| == size)
  }

  lemma {:induction false} ChunksSizes<T>(s: seq<T>, size: nat)
    requires size > 0
    ensures WellCut(Chunks(s, size), size)
    decreases |s|
  {
    var c := Chunks(s, size);
    if s != [] && |s| > size {
      var rest := Chunks(s[size..], size);
      ChunksSizes(s[size..], size);
      assert c == [s[..size]] + rest;
      forall k | 0 <= k < |c| ensures 0 < |c[k]| <= size && (k < |c| - 1 ==> |c[k]| == size) {
        if k > 0 {
          assert c[k] == rest[k - 1];
        }
      }
    }
  }

  // ---------------------------------------------------------------- cells

  const NoNote: string := "无备注"
  const Ellipsis: string := "..."
  const NoteLimit: nat := 60

  /** The note cell: `order.note || '无备注'`, cut to its first 60 characters
      followed by "..." when it is longer. */
  function NoteCell(note: string): (c: string)
    ensures |c| <= NoteLimit + |Ellipsis|
  {
    var text := if note == "" then NoNote else note;
    if |text| > NoteLimit then text[..NoteLimit] + Ellipsis else text
  }

  /** A note of at most sixty characters is shown whole, an empty one as
      '无备注'; a longer one shows its first sixty characters, so two long
      notes that start alike look alike. */
  lemma NoteCellShows(note: string, other: string)
    ensures note == "" ==> NoteCell(note) == NoNote
    ensures 0 < |note| <= NoteLimit ==> NoteCell(note) == note
    ensures |note| > NoteLimit ==> StartsWith(NoteCell(note), note[..NoteLimit]) && EndsWith(NoteCell(note), Ellipsis)
    ensures |note| > NoteLimit && |other| > NoteLimit && note[..NoteLimit] == other[..NoteLimit]
            ==> NoteCell(note) == NoteCell(other)
  {
    if |note| > NoteLimit {
      var c := NoteCell(note);
      assert c[..NoteLimit] == note[..NoteLimit];
      assert c[|c| - |Ellipsis|..] == Ellipsis;
    }
  }

  /** The tag cell: the tags joined with " / ", or "-" when there are none. */
  function TagCell(tags: Option<seq<string>>): (c: string)
    ensures tags.None? || tags.value == [] ==> c == "-"
  {
    if tags.Some? && |tags.value| > 0 then Join(tags.value, " / ") else "-"
  }

  /** One tag is shown as it is, and a cell of several tags starts with the
      first of them. */
  lemma TagCellShows(tags: seq<string>)
    requires tags != []
    ensures |tags| == 1 ==> TagCell(Some(tags)) == tags[0]
    ensures StartsWith(TagCell(Some(tags)), tags[0])
  {
    var c := TagCell(Some(tags));
    if |tags| > 1 {
      assert c == tags[0] + " / " + Join(tags[1..], " / ");
      assert c[..|tags[0]|] == tags[0];
    } else {
      assert c == tags[0];
    }
  }

  /** The status shown next to the price. */
  function StatusText(s: Status): string {
    if s == Completed then "已完成" else "待处理"
  }

  /** `formatCurrency`: "¥" and the value with two decimals, a value that
      is not a number shown as 0. `fixed2` is `toFixed(2)`. */
  function FormatCurrency(v: JsNumber, fixed2: real -> string): (t: string)
    ensures StartsWith(t, "¥")
  {
    "¥" + fixed2(v.OrZero().value)
  }

  /** The text of one table row: customer, price and status, date, tags,
      note. */
  datatype Cells = Cells(customer: string, price: string, date: string, tags: string, note: string)

  /** `order.customerName || '未填写'` and the other cells of the row. */
  function RowCells(o: Order, dateTime: int -> string, fixed2: real -> string): (c: Cells)
    ensures c.customer != ""
    ensures o.customerName != "" ==> c.customer == o.customerName
  {
    Cells(if o.customerName == "" then "未填写" else o.customerName,
          FormatCurrency(o.price, fixed2) + " · " + StatusText(o.status),
          dateTime(o.createdAt),
          TagCell(o.tags),
          NoteCell(o.note))
  }

  // ---------------------------------------------------------------- the document

  /** The sum the summary line reports: `orders.reduce((sum, o) => sum +
      (o.price || 0), 0)`. */
  function TotalRevenue(orders: seq<Order>): real {
    Stats.Revenue(orders)
  }

  /** The report's total agrees with the dashboard's income whenever every
      price is a number; a price that is not a number counts 0 here and
      makes the dashboard's income not a number. */
  lemma TotalRevenueMatchesIncome(orders: seq<Order>)
    ensures Stats.TotalIncome(orders).Finite? ==> Stats.TotalIncome(orders).value == TotalRevenue(orders)
    ensures Stats.TotalIncome(orders).NaN? <==> exists k :: 0 <= k < |orders| && orders[k].price.NaN?
  {
    Stats.TotalIncomeMeaning(orders);
  }

  const DefaultTitle: string := "小刘裁缝铺订单汇总"
  const BrowserOnly: string := "PDF 导出仅支持在浏览器中执行"

  /** The summary line under the title. */
  function SummaryText(orders: seq<Order>, generatedAt: string, fixed2: real -> string): string {
    "生成时间：" + generatedAt + " · 订单数量：" + NatToString(|orders|)
    + " · 累计金额：" + FormatCurrency(Finite(TotalRevenue(orders)), fixed2)
  }

  /** The summary line states the number of orders: after its fixed opening
      come the decimal digits of the count, ended by a space, and they read
      back as the count. */
  lemma SummaryReportsCount(orders: seq<Order>, generatedAt: string, fixed2: real -> string)
    ensures var line := SummaryText(orders, generatedAt, fixed2);
            var head := "生成时间：" + generatedAt + " · 订单数量：";
            var n := |NatToString(|orders|)|;
            && |line| > |head| + n && line[..|head|] == head
            && (forall i :: |head| <= i < |head| + n ==> IsDigit(line[i]))
            && !IsDigit(line[|head| + n])
            && ParseNat(line[|head|..|head| + n]) == |orders|
  {
    var line := SummaryText(orders, generatedAt, fixed2);
    var head := "生成时间：" + generatedAt + " · 订单数量：";
    var digits := NatToString(|orders|);
    var tail := " · 累计金额：" + FormatCurrency(Finite(TotalRevenue(orders)), fixed2);
    assert line == head + digits + tail;
    assert line[..|head|] == head;
    assert line[|head|..|head| + |digits|] == digits;
    assert line[|head| + |digits|] == tail[0] == ' ';
    ParseNatToString(|orders|);
  }

  /** One chunk as it is drawn: the title and the summary above the table on
      the first chunk only, then the table's rows. */
  datatype Sheet = Sheet(header: Option<(string, string)>, rows: seq<Cells>)

  /** `createChunkElement`. */
  function ChunkSheet(title: string, orders: seq<Order>, chunkIndex: nat, summary: string,
                      dateTime: int -> string, fixed2: real -> string): (s: Sheet)
    ensures s.header.Some? <==> chunkIndex == 0
    ensures |s.rows| == |orders|
    ensures forall k :: 0 <= k < |orders| ==> s.rows[k] == RowCells(orders[k], dateTime, fixed2)
  {
    Sheet(if chunkIndex == 0 then Some((title, summary)) else None,
          seq(|orders|, k requires 0 <= k < |orders| => RowCells(orders[k], dateTime, fixed2)))
  }

  /** A page of the PDF: still blank, or showing one drawn chunk. */
  datatype Page = BlankPage | Drawn(sheet: Sheet)

  /** `generateOrdersPDF`. `title` is `None` when the caller gives none,
      `inBrowser` says whether a document exists to draw in, `generatedAt` is
      the time of the summary line. The document
      starts with one page; each chunk after the first gets a new page, and
      each chunk is drawn on the last page. */
  method GenerateOrdersPdf(orders: seq<Order>, title: Option<string>, inBrowser: bool, generatedAt: string,
                           dateTime: int -> string, fixed2: real -> string)
    returns (r: Result<seq<Page>>)
    ensures !inBrowser ==> r == Failure(BrowserOnly)
    ensures inBrowser ==> r.Success?
    ensures r.Success? ==>
      var chunks := Chunks(orders, ChunkSize);
      var summary := SummaryText(orders, generatedAt, fixed2);
      && |r.value| == (if chunks == [] then 1 else |chunks|)
      && (chunks == [] ==> r.value == [BlankPage])
      && forall k :: 0 <= k < |chunks| ==>
           r.value[k] == Drawn(ChunkSheet(title.GetOr(DefaultTitle), chunks[k], k, summary, dateTime, fixed2))
  {
    if !inBrowser {
      return Failure(BrowserOnly);
    }
    var summary := SummaryText(orders, generatedAt, fixed2);
    var chunks := ChunkOrders(orders, ChunkSize);
    var doc := [BlankPage];
    var index := 0;
    while index < |chunks|
      invariant 0 <= index <= |chunks|
      invariant |doc| == (if index == 0 then 1 else index)
      invariant forall k :: 0 <= k < index ==>
        doc[k] == Drawn(ChunkSheet(title.GetOr(DefaultTitle), chunks[k], k, summary, dateTime, fixed2))
      invariant index == 0 ==> doc == [BlankPage]
    {
      var sheet := ChunkSheet(title.GetOr(DefaultTitle), chunks[index], index, summary, dateTime, fixed2);
      if index > 0 {
        doc := doc + [BlankPage];
      }
      doc := doc[..|doc| - 1] + [Drawn(sheet)];
      index := index + 1;
    }
    return Success(doc);
  }

  /** The pages of the report: one per fourteen orders (one blank page for
      no orders), every page full but the last, the summary on the first
      page only, and the rows of all pages together are the orders' rows in
      order. */
  lemma ReportPages(orders: seq<Order>, title: string, generatedAt: string,
                    dateTime: int -> string, fixed2: real -> string, k: nat)
    requires k < |Chunks(orders, ChunkSize)|
    ensures |Chunks(orders, ChunkSize)| == (|orders| + 13) / 14
    ensures var sheet := ChunkSheet(title, Chunks(orders, ChunkSize)[k], k,
                                    SummaryText(orders, generatedAt, fixed2), dateTime, fixed2);
            && (sheet.header.Some? <==> k == 0)
            && 0 < |sheet.rows| <= 14
            && (k < |Chunks(orders, ChunkSize)| - 1 ==> |sheet.rows| == 14)
    ensures Concat(Chunks(orders, ChunkSize)) == orders
  {
    ChunksCount(orders, ChunkSize);
    ChunksSizes(orders, ChunkSize);
    ChunksConcat(orders, ChunkSize);
  }
}
