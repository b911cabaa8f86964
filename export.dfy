/** The data export (ExportView.swift): one row per income allocation, expense and transfer,
    in day order, and the CSV text built from the rows. */
module Export {
  import opened Records
  import opened Seqs
  import opened Text

  datatype ExportScope = AllData | CurrentMonth

  /** The reporting window `[start, end]`, when there is one. */
  datatype Interval = Interval(start: Date, end: Date)

  /** All data has no window; the current month runs from its first instant (`monthStart`,
      a calendar computation) to `now`. */
  function Window(scope: ExportScope, monthStart: Date, now: Date): Option<Interval> {
    match scope
    case AllData => None
    case CurrentMonth => Some(Interval(monthStart, now))
  }

  predicate Within(d: Date, w: Option<Interval>) {
    w.None? || (w.value.start <= d && d <= w.value.end)
  }

  /** `ExportRow`. The date column is the day (`yyyy-MM-dd`, whose text orders as the day
      does); the amount column is the amount before its conversion to text. */
  datatype ExportRow = ExportRow(day: int, envelope: string, kind: string, amount: real, note: Option<string>)

  function RowDay(r: ExportRow): int {
    r.day
  }

  // ---------------------------------------------------------------------------
  // Rows

  /** The allocation fetch's predicate `transaction.date` within the window: an allocation
      without a parent transaction never matches a window. */
  predicate AllocationMatches(s: Store, a: Allocation, w: Option<Interval>) {
    w.None? || match FindTransaction(s.transactions, a.transaction)
               case None => false
               case Some(t) => Within(t.date, w)
  }

  /** The transaction fetch's predicate: an expense or a transfer, dated within the window. */
  predicate TransactionMatches(t: Transaction, w: Option<Interval>) {
    (t.kind == ExpenseKind || t.kind == TransferKind) && Within(t.date, w)
  }

  function AllocationFetch(s: Store, allocs: seq<Allocation>, w: Option<Interval>): (r: seq<Allocation>)
    ensures forall a :: a in r <==> a in allocs && AllocationMatches(s, a, w)
  {
    if |allocs| == 0 then []
    else
      var last := allocs[|allocs| - 1];
      assert allocs == allocs[..|allocs| - 1] + [last];
      AllocationFetch(s, allocs[..|allocs| - 1], w) + (if AllocationMatches(s, last, w) then [last] else [])
  }

  function TransactionFetch(ts: seq<Transaction>, w: Option<Interval>): (r: seq<Transaction>)
    ensures forall t :: t in r <==> t in ts && TransactionMatches(t, w)
  {
    if |ts| == 0 then []
    else
      var last := ts[|ts| - 1];
      assert ts == ts[..|ts| - 1] + [last];
      TransactionFetch(ts[..|ts| - 1], w) + (if TransactionMatches(last, w) then [last] else [])
  }

  /** An allocation's row: dated by its parent (or `now`), the envelope's name or "",
      type "income", the amount as stored, the parent's note. */
  function AllocationRow(s: Store, a: Allocation, now: Date, dayOf: Date -> int): ExportRow {
    ExportRow(dayOf(ParentDate(s, a, now)), Or(NameOf(s, a.envelope), ""), IncomeKind,
              AmountOr0(a.amount), ParentNote(s, a))
  }

  /** An expense's or transfer's row: the envelope's name, else the source's, else ""; the
      transaction's own type; the amount negated. */
  function TransactionRow(s: Store, t: Transaction, dayOf: Date -> int): ExportRow {
    ExportRow(dayOf(t.date), Or(NameOf(s, t.envelope), Or(NameOf(s, t.sourceEnvelope), "")), t.kind,
              -AmountOr0(t.amount), t.note)
  }

  /** The first loop: each fetched allocation whose date lies in the window gives a row. */
  function AllocationRows(s: Store, fetched: seq<Allocation>, w: Option<Interval>, now: Date, dayOf: Date -> int): seq<ExportRow> {
    if |fetched| == 0 then []
    else
      var last := fetched[|fetched| - 1];
      AllocationRows(s, fetched[..|fetched| - 1], w, now, dayOf)
        + (if Within(ParentDate(s, last, now), w) then [AllocationRow(s, last, now, dayOf)] else [])
  }

  /** The second loop: each fetched transaction gives a row. */
  function TransactionRows(s: Store, fetched: seq<Transaction>, dayOf: Date -> int): seq<ExportRow> {
    if |fetched| == 0 then []
    else TransactionRows(s, fetched[..|fetched| - 1], dayOf) + [TransactionRow(s, fetched[|fetched| - 1], dayOf)]
  }

  /** The rows before the final sort. */
  function Unsorted(s: Store, w: Option<Interval>, now: Date, dayOf: Date -> int): seq<ExportRow> {
    AllocationRows(s, AllocationFetch(s, s.allocations, w), w, now, dayOf)
      + TransactionRows(s, TransactionFetch(s.transactions, w), dayOf)
  }

  /** The rows `fetchExportData()` returns. */
  function ExportRows(s: Store, w: Option<Interval>, now: Date, dayOf: Date -> int): seq<ExportRow> {
    SortBy(Unsorted(s, w, now, dayOf), RowDay)
  }

  /** `fetchExportData()`: the two loops append rows, which are then sorted by day. */
  method FetchExportData(ctx: Context, scope: ExportScope, monthStart: Date, now: Date, dayOf: Date -> int)
    returns (rows: seq<ExportRow>)
    ensures rows == ExportRows(ctx.Snapshot(), Window(scope, monthStart, now), now, dayOf)
  {
    var s := ctx.Snapshot();
    var w := Window(scope, monthStart, now);
    rows := [];
    var allocs := AllocationFetch(s, s.allocations, w);
    for i := 0 to |allocs|
      invariant rows == AllocationRows(s, allocs[..i], w, now, dayOf)
    {
      AllocationRowsStep(s, allocs, i, w, now, dayOf);
      var d := ParentDate(s, allocs[i], now);
      if !Within(d, w) {
        continue;
      }
      rows := rows + [AllocationRow(s, allocs[i], now, dayOf)];
    }
    assert allocs[..|allocs|] == allocs;
    var head := rows;
    var list := TransactionFetch(s.transactions, w);
    for i := 0 to |list|
      invariant rows == head + TransactionRows(s, list[..i], dayOf)
    {
      var row := TransactionRow(s, list[i], dayOf);
      TransactionRowsStep(s, list, i, dayOf);
      AppendAssoc(head, TransactionRows(s, list[..i], dayOf), [row]);
      rows := rows + [row];
    }
    assert list[..|list|] == list;
    rows := SortBy(rows, RowDay);
  }

  /** One more fetched allocation adds its row when its date lies in the window. */
  lemma AllocationRowsStep(s: Store, allocs: seq<Allocation>, i: nat, w: Option<Interval>, now: Date, dayOf: Date -> int)
    requires i < |allocs|
    ensures AllocationRows(s, allocs[..i + 1], w, now, dayOf)
         == AllocationRows(s, allocs[..i], w, now, dayOf)
          + (if Within(ParentDate(s, allocs[i], now), w) then [AllocationRow(s, allocs[i], now, dayOf)] else [])
  {
    assert allocs[..i + 1][..i] == allocs[..i];
  }

  /** One more fetched transaction adds its row. */
  lemma TransactionRowsStep(s: Store, list: seq<Transaction>, i: nat, dayOf: Date -> int)
    requires i < |list|
    ensures TransactionRows(s, list[..i + 1], dayOf) == TransactionRows(s, list[..i], dayOf) + [TransactionRow(s, list[i], dayOf)]
  {
    assert list[..i + 1][..i] == list[..i];
  }

  /** The exported rows are the unsorted rows, each as often, in ascending day order. */
  lemma ExportRowsSorted(s: Store, w: Option<Interval>, now: Date, dayOf: Date -> int)
    ensures var r := ExportRows(s, w, now, dayOf);
      multiset(r) == multiset(Unsorted(s, w, now, dayOf))
      && forall i, j :: 0 <= i < j < |r| ==> r[i].day <= r[j].day
  {
    var r := ExportRows(s, w, now, dayOf);
    assert SortedBy(r, RowDay);
    forall i, j | 0 <= i < j < |r| ensures r[i].day <= r[j].day {
      assert RowDay(r[i]) <= RowDay(r[j]);
    }
  }

  // ---------------------------------------------------------------------------
  // Which records are exported

  /** A row comes from an in-window allocation, or from an in-window expense or transfer. */
  predicate FromRecord(s: Store, w: Option<Interval>, now: Date, dayOf: Date -> int, row: ExportRow) {
    (exists a :: a in s.allocations && AllocationMatches(s, a, w) && Within(ParentDate(s, a, now), w)
                 && row == AllocationRow(s, a, now, dayOf))
    || (exists t :: t in s.transactions && TransactionMatches(t, w) && row == TransactionRow(s, t, dayOf))
  }

  lemma {:induction false} AllocationRowsExact(s: Store, fetched: seq<Allocation>, w: Option<Interval>, now: Date, dayOf: Date -> int)
    ensures forall row :: row in AllocationRows(s, fetched, w, now, dayOf) <==>
      exists a :: a in fetched && Within(ParentDate(s, a, now), w) && row == AllocationRow(s, a, now, dayOf)
  {
    if |fetched| > 0 {
      var init := fetched[..|fetched| - 1];
      assert fetched == init + [fetched[|fetched| - 1]];
      AllocationRowsExact(s, init, w, now, dayOf);
    }
  }

  lemma {:induction false} TransactionRowsExact(s: Store, fetched: seq<Transaction>, dayOf: Date -> int)
    ensures forall row :: row in TransactionRows(s, fetched, dayOf) <==>
      exists t :: t in fetched && row == TransactionRow(s, t, dayOf)
  {
    if |fetched| > 0 {
      var init := fetched[..|fetched| - 1];
      assert fetched == init + [fetched[|fetched| - 1]];
      TransactionRowsExact(s, init, dayOf);
    }
  }

  lemma UnsortedExactly(s: Store, w: Option<Interval>, now: Date, dayOf: Date -> int, row: ExportRow)
    ensures row in Unsorted(s, w, now, dayOf) <==> FromRecord(s, w, now, dayOf, row)
  {
    var allocs := AllocationFetch(s, s.allocations, w);
    var list := TransactionFetch(s.transactions, w);
    AllocationRowsExact(s, allocs, w, now, dayOf);
    TransactionRowsExact(s, list, dayOf);
    assert row in Unsorted(s, w, now, dayOf)
      <==> row in AllocationRows(s, allocs, w, now, dayOf) || row in TransactionRows(s, list, dayOf);
  }

  /** A row is exported exactly when an in-window record gives it: nothing outside the
      window, and nothing from an "income" transaction itself. */
  lemma ExportedExactly(s: Store, w: Option<Interval>, now: Date, dayOf: Date -> int, row: ExportRow)
    ensures row in ExportRows(s, w, now, dayOf) <==> FromRecord(s, w, now, dayOf, row)
  {
    var u := Unsorted(s, w, now, dayOf);
    var r := ExportRows(s, w, now, dayOf);
    assert multiset(r) == multiset(u);
    assert row in r <==> row in multiset(r);
    assert row in u <==> row in multiset(u);
    UnsortedExactly(s, w, now, dayOf, row);
  }

  /** With "current month", every exported record is dated within `[monthStart, now]`; with
      "all data", every allocation, expense and transfer is exported. */
  lemma ScopeBounds(s: Store, monthStart: Date, now: Date, dayOf: Date -> int, row: ExportRow)
    ensures FromRecord(s, Window(CurrentMonth, monthStart, now), now, dayOf, row) ==>
      (exists a :: a in s.allocations && row == AllocationRow(s, a, now, dayOf)
                   && FindTransaction(s.transactions, a.transaction).Some?
                   && monthStart <= FindTransaction(s.transactions, a.transaction).value.date <= now)
      || (exists t :: t in s.transactions && row == TransactionRow(s, t, dayOf) && monthStart <= t.date <= now)
    ensures forall a :: a in s.allocations ==> FromRecord(s, None, now, dayOf, AllocationRow(s, a, now, dayOf))
    ensures forall t :: t in s.transactions && (t.kind == ExpenseKind || t.kind == TransferKind) ==>
      FromRecord(s, None, now, dayOf, TransactionRow(s, t, dayOf))
  {
  }

  /** Allocation rows are typed "income" and carry the stored amount; rows from transactions
      are typed "expense" or "transfer" and carry the amount negated. */
  lemma RowSigns(s: Store, a: Allocation, t: Transaction, now: Date, dayOf: Date -> int)
    requires TransactionMatches(t, None)
    ensures AllocationRow(s, a, now, dayOf).kind == IncomeKind
    ensures AllocationRow(s, a, now, dayOf).amount == AmountOr0(a.amount)
    ensures TransactionRow(s, t, dayOf).kind != IncomeKind
    ensures TransactionRow(s, t, dayOf).amount == -AmountOr0(t.amount)
  {
  }

  // ---------------------------------------------------------------------------
  // CSV

  const Header: string := "date,envelope,type,amount,note\n"

  /** A field in quotes with every `"` doubled. */
  function Quoted(x: string): string {
    "\"" + EscapeQuotes(x) + "\""
  }

  /** The envelope column as written: in quotes, but its `"` not doubled. */
  function QuotedAsWritten(x: string): string {
    "\"" + x + "\""
  }

  /** One CSV line as `generateCSV()` writes it; the date and amount texts come from the
      date and number formatters. */
  function LineAsWritten(row: ExportRow, dateText: int -> string, amountText: real -> string): string {
    dateText(row.day) + "," + QuotedAsWritten(row.envelope) + "," + row.kind + "," + amountText(row.amount)
      + "," + Quoted(Or(row.note, "")) + "\n"
  }

  /** The line with the envelope column escaped like the note column. */
  function Line(row: ExportRow, dateText: int -> string, amountText: real -> string): string {
    dateText(row.day) + "," + Quoted(row.envelope) + "," + row.kind + "," + amountText(row.amount)
      + "," + Quoted(Or(row.note, "")) + "\n"
  }

  function LinesAsWritten(rows: seq<ExportRow>, dateText: int -> string, amountText: real -> string): string {
    if |rows| == 0 then ""
    else LinesAsWritten(rows[..|rows| - 1], dateText, amountText) + LineAsWritten(rows[|rows| - 1], dateText, amountText)
  }

  /** `generateCSV()`: the header, then one line per exported row. */
  method GenerateCSV(ctx: Context, scope: ExportScope, monthStart: Date, now: Date, dayOf: Date -> int,
                     dateText: int -> string, amountText: real -> string)
    returns (csv: string)
    ensures csv == Header + LinesAsWritten(ExportRows(ctx.Snapshot(), Window(scope, monthStart, now), now, dayOf), dateText, amountText)
  {
    var rows := FetchExportData(ctx, scope, monthStart, now, dayOf);
    csv := Header;
    for i := 0 to |rows|
      invariant csv == Header + LinesAsWritten(rows[..i], dateText, amountText)
    {
      var line := LineAsWritten(rows[i], dateText, amountText);
      LinesStep(rows, i, dateText, amountText);
      AppendAssoc(Header, LinesAsWritten(rows[..i], dateText, amountText), line);
      csv := csv + line;
    }
    assert rows[..|rows|] == rows;
  }

  /** One more row adds its line at the end. */
  lemma LinesStep(rows: seq<ExportRow>, i: nat, dateText: int -> string, amountText: real -> string)
    requires i < |rows|
    ensures LinesAsWritten(rows[..i + 1], dateText, amountText)
         == LinesAsWritten(rows[..i], dateText, amountText) + LineAsWritten(rows[i], dateText, amountText)
  {
    assert rows[..i + 1][..i] == rows[..i];
  }

  /** Each row adds one line of at least nine characters: four commas, two pairs of quotes
      and the line end. */
  lemma {:induction false} LinesLength(rows: seq<ExportRow>, dateText: int -> string, amountText: real -> string)
    ensures |LinesAsWritten(rows, dateText, amountText)| >= 9 * |rows|
  {
    if |rows| > 0 {
      LinesLength(rows[..|rows| - 1], dateText, amountText);
    }
  }

  /** Every export starts with the header line, followed by the rows' lines. */
  lemma CsvShape(rows: seq<ExportRow>, dateText: int -> string, amountText: real -> string)
    ensures var csv := Header + LinesAsWritten(rows, dateText, amountText);
      IsPrefix(Header, csv) && |csv| >= |Header| + 9 * |rows|
  {
    LinesLength(rows, dateText, amountText);
    var csv := Header + LinesAsWritten(rows, dateText, amountText);
    assert csv[..|Header|] == Header;
  }

  // ---------------------------------------------------------------------------
  // Reading a quoted field back (RFC 4180, section 2)

  /** The rest of a quoted field after its opening quote: `""` stands for `"`, a lone `"`
      closes the field. The field's text and what follows it, or none when it never closes. */
  function ReadQuotedBody(s: string): Option<(string, string)> {
    if |s| == 0 then None
    else if s[0] == '"' then
      if |s| > 1 && s[1] == '"' then
        match ReadQuotedBody(s[2..])
        case None => None
        case Some(p) => Some(("\"" + p.0, p.1))
      else Some(("", s[1..]))
    else
      match ReadQuotedBody(s[1..])
      case None => None
      case Some(p) => Some(([s[0]] + p.0, p.1))
  }

  function ReadQuoted(s: string): Option<(string, string)> {
    if |s| > 0 && s[0] == '"' then ReadQuotedBody(s[1..]) else None
  }

  lemma {:induction false} ReadEscaped(x: string, rest: string)
    requires |rest| > 0 ==> rest[0] != '"'
    ensures ReadQuotedBody(EscapeQuotes(x) + "\"" + rest) == Some((x, rest))
  {
    if |x| > 0 {
      ReadEscaped(x[1..], rest);
      assert x == [x[0]] + x[1..];
      if x[0] == '"' {
        assert EscapeQuotes(x) + "\"" + rest == "\"\"" + (EscapeQuotes(x[1..]) + "\"" + rest);
      } else {
        assert EscapeQuotes(x) + "\"" + rest == [x[0]] + (EscapeQuotes(x[1..]) + "\"" + rest);
      }
    } else {
      assert EscapeQuotes(x) + "\"" + rest == "\"" + rest;
    }
  }

  /** A quoted field followed by a separator reads back as exactly the text that was quoted,
      whatever it contains: the note column round-trips, and so does the envelope column of
      `Line` (`LineEnvelopeReadsBack`, `LineNoteReadsBack`). */
  lemma QuotedRoundTrip(x: string, rest: string)
    requires |rest| > 0 ==> rest[0] != '"'
    ensures ReadQuoted(Quoted(x) + rest) == Some((x, rest))
  {
    ReadEscaped(x, rest);
    assert Quoted(x) + rest == "\"" + (EscapeQuotes(x) + "\"" + rest);
  }

  /** In the corrected line the envelope field, after the date and its comma, reads back as
      the envelope's name followed by the rest of the line, whatever quote marks it holds. */
  lemma LineEnvelopeReadsBack(row: ExportRow, dateText: int -> string, amountText: real -> string)
    ensures |dateText(row.day)| + 1 <= |Line(row, dateText, amountText)|
    ensures ReadQuoted(Line(row, dateText, amountText)[|dateText(row.day)| + 1..])
         == Some((row.envelope, "," + row.kind + "," + amountText(row.amount) + "," + Quoted(Or(row.note, "")) + "\n"))
  {
    var start := dateText(row.day) + "," + Quoted(row.envelope);
    var t1 := "," + row.kind;
    var t2 := t1 + ",";
    var t3 := t2 + amountText(row.amount);
    var t4 := t3 + ",";
    var t5 := t4 + Quoted(Or(row.note, ""));
    AppendAssoc(start, ",", row.kind);
    AppendAssoc(start, t1, ",");
    AppendAssoc(start, t2, amountText(row.amount));
    AppendAssoc(start, t3, ",");
    AppendAssoc(start, t4, Quoted(Or(row.note, "")));
    AppendAssoc(start, t5, "\n");
    ReadQuotedAfter(Line(row, dateText, amountText), dateText(row.day) + ",", row.envelope, t5 + "\n");
  }

  /** In the corrected line the note field, the last one, reads back as the note followed by
      the line end, whatever quote marks it holds. */
  lemma LineNoteReadsBack(row: ExportRow, dateText: int -> string, amountText: real -> string)
    ensures |Quoted(Or(row.note, ""))| + 1 <= |Line(row, dateText, amountText)|
    ensures ReadQuoted(Line(row, dateText, amountText)[|Line(row, dateText, amountText)| - |Quoted(Or(row.note, ""))| - 1..])
         == Some((Or(row.note, ""), "\n"))
  {
    var before := dateText(row.day) + "," + Quoted(row.envelope) + "," + row.kind + "," + amountText(row.amount) + ",";
    ReadQuotedAfter(Line(row, dateText, amountText), before, Or(row.note, ""), "\n");
  }

  /** A quoted field in the middle of a line reads back from where it starts. */
  lemma ReadQuotedAfter(line: string, before: string, x: string, rest: string)
    requires line == before + Quoted(x) + rest
    requires |rest| > 0 ==> rest[0] != '"'
    ensures |before| + |Quoted(x)| + |rest| == |line|
    ensures ReadQuoted(line[|before|..]) == Some((x, rest))
  {
    QuotedRoundTrip(x, rest);
    assert line[|before|..] == Quoted(x) + rest;
  }

  /** The envelope column as written does not round-trip: an envelope named `a"b` reads back
      as `a`, and the rest of its name spills into the following text. */
  lemma EnvelopeQuoteBreaksField()
    ensures ReadQuoted(QuotedAsWritten("a\"b") + ",") == Some(("a", "b\","))
    ensures ReadQuoted(QuotedAsWritten("a\"b") + ",") != Some(("a\"b", ","))
  {
    assert QuotedAsWritten("a\"b") + "," == "\"a\"b\",";
    assert ("\"a\"b\",")[1..] == "a\"b\",";
    assert ("a\"b\",")[1..] == "\"b\",";
    assert ("\"b\",")[1..] == "b\",";
    assert ReadQuotedBody("\"b\",") == Some(("", "b\","));
    assert ['a'] + "" == "a";
    assert ReadQuotedBody("a\"b\",") == Some(("a", "b\","));
  }
}
