/** The CSV export of the order store (mytailor5/services/db.ts,
    `exportToCSV`). Quoted fields double their inner quotes as rule 7 of
    section 2 of RFC 4180 asks. Locale-dependent text (dates, times and the
    JavaScript text of a number) is a parameter. */
module StoreExport {
  import opened Wrappers
  import opened Text
  import opened Orders

  const Bom: string := "\U{FEFF}"
  const Header: string := "顾客姓名/单号,来源,状态,标签,价格(元),日期,具体时间,发货时间,图片数量,衣物备注,系统ID\n"

  /** `s.replace(/"/g, '""')`. */
  function Escape(s: string): (e: string)
    ensures |e| >= |s|
  {
    if s == [] then []
    else if s[0] == '"' then "\"\"" + Escape(s[1..])
    else [s[0]] + Escape(s[1..])
  }

  /** `"${escaped}"`: the quoted field. */
  function Quote(s: string): string {
    "\"" + Escape(s) + "\""
  }

  /** A CSV reader's view of a quoted field: given the text after the opening
      quote, it takes `""` as one quote and stops at the first lone quote,
      returning the value and what follows the closing quote. */
  function ReadQuoted(s: string): Option<(string, string)> {
    if s == [] then None
    else if s[0] == '"' then
      if |s| >= 2 && s[1] == '"' then
        match ReadQuoted(s[2..])
        case Some(p) => Some(("\"" + p.0, p.1))
        case None => None
      else Some(("", s[1..]))
    else
      match ReadQuoted(s[1..])
      case Some(p) => Some(([s[0]] + p.0, p.1))
      case None => None
  }

  /** Reading a quoted field gives back exactly the value that was quoted,
      and the text after it, whenever that text does not start with a quote
      (in a row it starts with the comma). */
  lemma {:induction false} ReadQuotedEscape(v: string, rest: string)
    requires rest == [] || rest[0] != '"'
    ensures ReadQuoted(Escape(v) + "\"" + rest) == Some((v, rest))
  {
    var s := Escape(v) + "\"" + rest;
    if v == [] {
      assert s == "\"" + rest;
    } else if v[0] == '"' {
      assert s == "\"\"" + (Escape(v[1..]) + "\"" + rest);
      ReadQuotedEscape(v[1..], rest);
      assert "\"" + v[1..] == v;
    } else {
      assert s == [v[0]] + (Escape(v[1..]) + "\"" + rest);
      ReadQuotedEscape(v[1..], rest);
      assert [v[0]] + v[1..] == v;
    }
  }

  /** The same for a whole quoted field: strip the opening quote, read. */
  lemma QuoteRoundTrip(v: string, rest: string)
    requires rest == [] || rest[0] != '"'
    ensures |Quote(v) + rest| >= 1 && (Quote(v) + rest)[0] == '"'
    ensures ReadQuoted((Quote(v) + rest)[1..]) == Some((v, rest))
  {
    assert (Quote(v) + rest)[1..] == Escape(v) + "\"" + rest;
    ReadQuotedEscape(v, rest);
  }

  function StatusText(s: Status): string {
    if s == Completed then "已发货" else "待处理"
  }

  function SourceText(s: Option<Source>): string {
    if s == Some(Offline) then "线下" else "线上"
  }

  /** The eleven fields of one row, in the header's order. The image count
      is that of the order's list (the orders come from `getOrders`, which
      always sets a list). */
  function Fields(o: Order, loc: Locale): (f: seq<string>)
    ensures |f| == 11 && f[0] == Quote(o.customerName) && f[9] == Quote(o.note) && f[10] == o.id
  {
    var completed := if o.completedAt.Some? && o.completedAt.value != 0
                     then loc.date(o.completedAt.value) else "-";
    var tags := if o.tags.Some? then Join(o.tags.value, ";") else "";
    [Quote(o.customerName), SourceText(o.source), StatusText(o.status), Quote(tags),
     loc.number(o.price), loc.date(o.createdAt), loc.time(o.createdAt), completed,
     NatToString(|o.images|) + "张", Quote(o.note), o.id]
  }

  /** One row, without its line break: the fields separated by commas. */
  function CsvRow(o: Order, loc: Locale): string {
    Join(Fields(o, loc), ",")
  }

  /** Text lines, each followed by a line break. */
  function Lines(rows: seq<string>): string {
    if rows == [] then ""
    else Lines(rows[..|rows| - 1]) + rows[|rows| - 1] + "\n"
  }

  function RowTexts(orders: seq<Order>, loc: Locale): (rows: seq<string>)
    ensures |rows| == |orders|
    ensures forall i :: 0 <= i < |orders| ==> rows[i] == CsvRow(orders[i], loc)
  {
    seq(|orders|, i requires 0 <= i < |orders| => CsvRow(orders[i], loc))
  }

  /** The rows of `orders`, one per order, each followed by a line break. */
  function Rows(orders: seq<Order>, loc: Locale): string {
    Lines(RowTexts(orders, loc))
  }

  /** `exportToCSV` over the loaded orders. */
  method ExportToCsv(orders: seq<Order>, loc: Locale) returns (csv: string)
    ensures csv == Bom + Header + Rows(orders, loc)
  {
    csv := Bom;
    csv := csv + Header;
    var i := 0;
    while i < |orders|
      invariant 0 <= i <= |orders|
      invariant csv == Bom + Header + Rows(orders[..i], loc)
    {
      var row := CsvRow(orders[i], loc);
      var next := RowTexts(orders[..i + 1], loc);
      assert next[..i] == RowTexts(orders[..i], loc);
      assert Rows(orders[..i + 1], loc) == Rows(orders[..i], loc) + row + "\n";
      csv := csv + row + "\n";
      i := i + 1;
    }
    assert orders[..i] == orders;
  }

  lemma {:induction false} LinesAppend(a: seq<string>, b: seq<string>)
    ensures Lines(a + b) == Lines(a) + Lines(b)
    decreases |b|
  {
    if b == [] {
      assert a + b == a;
    } else {
      var c := a + b;
      assert c[..|c| - 1] == a + b[..|b| - 1];
      LinesAppend(a, b[..|b| - 1]);
    }
  }

  /** Each order contributes its own line: the rows of a list are the rows of
      its parts, one after the other. */
  lemma RowsAppend(a: seq<Order>, b: seq<Order>, loc: Locale)
    ensures Rows(a + b, loc) == Rows(a, loc) + Rows(b, loc)
  {
    assert RowTexts(a + b, loc) == RowTexts(a, loc) + RowTexts(b, loc);
    LinesAppend(RowTexts(a, loc), RowTexts(b, loc));
  }

  /** A reader of a row finds the customer name first, as it was, and the
      comma that ends it. */
  lemma RowStartsWithName(o: Order, loc: Locale)
    ensures var row := CsvRow(o, loc);
            |row| >= 1 && row[0] == '"' &&
            exists rest :: ReadQuoted(row[1..]) == Some((o.customerName, rest)) && |rest| >= 1 && rest[0] == ','
  {
    var f := Fields(o, loc);
    var rest := "," + Join(f[1..], ",");
    assert CsvRow(o, loc) == Quote(o.customerName) + rest;
    QuoteRoundTrip(o.customerName, rest);
  }
}
